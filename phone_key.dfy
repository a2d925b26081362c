// Key phone numbers (pkg/iam/pkg/iamserver/core_user_key_phone_number.go): the phone
// numbers users sign in with. A user adds a number, which the phone-number verifier then
// confirms; a confirmed number belongs to one user only.
module KeyPhoneNumbers {
  import opened Wrappers
  import opened AzId
  import opened Strings
  import opened Decimal
  import opened PhoneNumbers
  import UserIds
  import Authorizations
  import TerminalStore

  // ---------------------------------------------------------------------------------
  // phoneNumberSliceToSQLSetString
  // ---------------------------------------------------------------------------------

  /** One number of the SQL set: "(", the country code, ",", the national number, ")". */
  function SQLGroup(pn: PhoneNumber): (r: string)
  {
    "(" + FormatInt(pn.countryCode) + "," + FormatInt(pn.nationalNumber) + ")"
  }

  function SQLGroups(pnSlice: seq<PhoneNumber>): (r: seq<string>)
    ensures |r| == |pnSlice| && forall i :: 0 <= i < |pnSlice| ==> r[i] == SQLGroup(pnSlice[i])
  {
    seq(|pnSlice|, i requires 0 <= i < |pnSlice| => SQLGroup(pnSlice[i]))
  }

  /** The SQL value set the numbers make: their groups, in order, separated by commas. */
  function SQLSetString(pnSlice: seq<PhoneNumber>): string
  {
    Join(SQLGroups(pnSlice), ',')
  }

  /** phoneNumberSliceToSQLSetString: the set built group by group in a buffer. */
  method PhoneNumberSliceToSQLSetString(pnSlice: seq<PhoneNumber>) returns (r: string)
    ensures r == SQLSetString(pnSlice)
  {
    if |pnSlice| == 0 {
      return "";
    }
    r := "";
    for idx := 0 to |pnSlice|
      invariant idx == 0 ==> r == ""
      invariant idx > 0 ==> r == Join(SQLGroups(pnSlice[..idx]), ',')
    {
      var iv := pnSlice[idx];
      var before := r;
      if idx != 0 {
        r := r + [','];
      }
      var head := r;
      r := r + ['('];
      r := r + FormatInt(iv.countryCode);
      r := r + [','];
      r := r + FormatInt(iv.nationalNumber);
      r := r + [')'];
      GroupWritten(head, FormatInt(iv.countryCode), FormatInt(iv.nationalNumber));
      SQLGroupsStep(pnSlice, idx);
      if idx != 0 {
        JoinSnoc(SQLGroups(pnSlice[..idx]), SQLGroup(iv), ',');
      }
    }
    assert pnSlice[..|pnSlice|] == pnSlice;
  }

  /** Writing a group piece by piece appends the group. */
  lemma GroupWritten(head: string, cc: string, nn: string)
    ensures head + ['('] + cc + [','] + nn + [')'] == head + ("(" + cc + "," + nn + ")")
  {
  }

  lemma SQLGroupsStep(pnSlice: seq<PhoneNumber>, idx: nat)
    requires idx < |pnSlice|
    ensures SQLGroups(pnSlice[..idx + 1]) == SQLGroups(pnSlice[..idx]) + [SQLGroup(pnSlice[idx])]
  {
    var front := pnSlice[..idx];
    var longer := pnSlice[..idx + 1];
    var a := SQLGroups(longer);
    var b := SQLGroups(front) + [SQLGroup(pnSlice[idx])];
    forall i | 0 <= i < |a|
      ensures a[i] == b[i]
    {
      if i < idx {
        assert longer[i] == front[i];
      }
    }
  }

  lemma SQLSetStringOfNone()
    ensures SQLSetString([]) == ""
  {
  }

  /** The first number's group comes first, then a comma and the rest. */
  lemma SQLSetStringCons(pn: PhoneNumber, rest: seq<PhoneNumber>)
    ensures SQLSetString([pn] + rest) == if rest == [] then SQLGroup(pn) else SQLGroup(pn) + "," + SQLSetString(rest)
  {
    assert SQLGroups([pn] + rest) == [SQLGroup(pn)] + SQLGroups(rest);
    if rest != [] {
      JoinCons(SQLGroup(pn), SQLGroups(rest), ',');
    }
  }

  lemma FormatIntPunctuationFree(n: int)
    ensures Count(FormatInt(n), '(') == 0 && Count(FormatInt(n), ')') == 0 && Count(FormatInt(n), ',') == 0
  {
    var s := FormatInt(n);
    forall i | 0 <= i < |s|
      ensures s[i] != '(' && s[i] != ')' && s[i] != ','
    {
      if n < 0 && i > 0 {
        assert s[1..][i - 1] == s[i];
      }
    }
    NoOccurrence(s, '(');
    NoOccurrence(s, ')');
    NoOccurrence(s, ',');
  }

  lemma {:induction false} NoOccurrence(s: string, c: char)
    requires forall i :: 0 <= i < |s| ==> s[i] != c
    ensures Count(s, c) == 0
  {
    if s != [] {
      NoOccurrence(s[1..], c);
    }
  }

  /** A group holds one '(', one ')' and one ','. */
  lemma SQLGroupCounts(pn: PhoneNumber)
    ensures Count(SQLGroup(pn), '(') == 1 && Count(SQLGroup(pn), ')') == 1 && Count(SQLGroup(pn), ',') == 1
  {
    var cc := FormatInt(pn.countryCode);
    var nn := FormatInt(pn.nationalNumber);
    FormatIntPunctuationFree(pn.countryCode);
    FormatIntPunctuationFree(pn.nationalNumber);
    GroupCount(cc, nn, '(');
    GroupCount(cc, nn, ')');
    GroupCount(cc, nn, ',');
  }

  lemma GroupCount(cc: string, nn: string, c: char)
    requires Count(cc, c) == 0 && Count(nn, c) == 0
    ensures Count("(" + cc + "," + nn + ")", c) == Count("(", c) + Count(",", c) + Count(")", c)
  {
    CountConcat("(" + cc + "," + nn, ")", c);
    CountConcat("(" + cc + ",", nn, c);
    CountConcat("(" + cc, ",", c);
    CountConcat("(", cc, c);
  }

  /** n numbers give n groups joined by n - 1 commas: n '(' and 2n - 1 ',' in all. */
  lemma {:induction false} SQLSetStringCounts(pnSlice: seq<PhoneNumber>)
    requires |pnSlice| >= 1
    ensures Count(SQLSetString(pnSlice), '(') == |pnSlice| && Count(SQLSetString(pnSlice), ')') == |pnSlice|
    ensures Count(SQLSetString(pnSlice), ',') == 2 * |pnSlice| - 1
  {
    var pn := pnSlice[0];
    var rest := pnSlice[1..];
    assert pnSlice == [pn] + rest;
    SQLSetStringCons(pn, rest);
    SQLGroupCounts(pn);
    if rest != [] {
      SQLSetStringCounts(rest);
      var g := SQLGroup(pn);
      var t := SQLSetString(rest);
      CountConcat(g + ",", t, '(');
      CountConcat(g, ",", '(');
      CountConcat(g + ",", t, ')');
      CountConcat(g, ",", ')');
      CountConcat(g + ",", t, ',');
      CountConcat(g, ",", ',');
    }
  }

  // ---------------------------------------------------------------------------------
  // The key phone-number table
  // ---------------------------------------------------------------------------------

  const ErrPhoneNumberConflict: AzError := ArgMsg("phoneNumber", "conflict")
  const ErrCodeMismatch: AzError := ArgMsg("code", "mismatch")
  const ErrCodeExpired: AzError := ArgMsg("code", "expired")

  /** The verification_ts and verification_id columns of a confirmed number. */
  datatype Verification = Verification(time: int, verificationID: int)

  /** A row of user_key_phone_number_dt; `creation` holds the md_c_ts, md_c_tid and md_c_uid columns. */
  datatype KeyPhoneRow = KeyPhoneRow(
    userIDNum: UserIds.UserIDNum,
    countryCode: Int32,
    nationalNumber: Int64,
    rawInput: string,
    creation: TerminalStore.Deletion,
    deletion: Option<TerminalStore.Deletion>,
    verification: Option<Verification>)

  predicate HasNumber(row: KeyPhoneRow, pn: PhoneNumber)
  {
    row.countryCode == pn.countryCode && row.nationalNumber == pn.nationalNumber
  }

  /** The row of this user for this number that is not deleted. */
  predicate IsLiveRowOf(row: KeyPhoneRow, userIDNum: UserIds.UserIDNum, pn: PhoneNumber)
  {
    row.userIDNum == userIDNum && HasNumber(row, pn) && row.deletion.None?
  }

  /** A confirmed number that is not deleted: the number is then this row's user's key. */
  predicate IsVerifiedKey(row: KeyPhoneRow)
  {
    row.deletion.None? && row.verification.Some?
  }

  /**
   * The table's constraints: the insert's conflict target, one live row per user and
   * number; and the unique index over confirmed live numbers that a second confirmation
   * of a number runs into.
   */
  predicate TableConstraints(rows: seq<KeyPhoneRow>)
  {
    (forall i, j ::
       0 <= i < j < |rows| && rows[i].deletion.None? && rows[j].deletion.None? && rows[i].userIDNum == rows[j].userIDNum ==>
       rows[i].countryCode != rows[j].countryCode || rows[i].nationalNumber != rows[j].nationalNumber) &&
    (forall i, j :: 0 <= i < j < |rows| && IsVerifiedKey(rows[i]) && IsVerifiedKey(rows[j]) ==>
       rows[i].countryCode != rows[j].countryCode || rows[i].nationalNumber != rows[j].nationalNumber)
  }

  /** The user of the confirmed live row with this number, or the zero id-num when there is none. */
  function VerifiedOwner(rows: seq<KeyPhoneRow>, pn: PhoneNumber): (r: UserIds.UserIDNum)
    ensures (forall i :: 0 <= i < |rows| ==> !(IsVerifiedKey(rows[i]) && HasNumber(rows[i], pn))) ==> r == UserIds.NumZero
    ensures r != UserIds.NumZero ==> exists i :: 0 <= i < |rows| && IsVerifiedKey(rows[i]) && HasNumber(rows[i], pn) && rows[i].userIDNum == r
  {
    if rows == [] then UserIds.NumZero
    else if IsVerifiedKey(rows[0]) && HasNumber(rows[0], pn) then rows[0].userIDNum
    else
      var r := VerifiedOwner(rows[1..], pn);
      assert forall i :: 1 <= i < |rows| ==> rows[1..][i - 1] == rows[i];
      r
  }

  /** Under the constraints, the owner is the user of any confirmed live row with the number. */
  lemma {:induction false} VerifiedOwnerOfRow(rows: seq<KeyPhoneRow>, pn: PhoneNumber, j: nat)
    requires TableConstraints(rows)
    requires j < |rows| && IsVerifiedKey(rows[j]) && HasNumber(rows[j], pn)
    ensures VerifiedOwner(rows, pn) == rows[j].userIDNum
  {
    if j > 0 {
      assert !(IsVerifiedKey(rows[0]) && HasNumber(rows[0], pn));
      assert TableConstraints(rows[1..]) by {
        assert forall i :: 0 <= i < |rows| - 1 ==> rows[1..][i] == rows[i + 1];
      }
      VerifiedOwnerOfRow(rows[1..], pn, j - 1);
    }
  }

  /** The first live row of the user for the number. */
  function LiveRow(rows: seq<KeyPhoneRow>, userIDNum: UserIds.UserIDNum, pn: PhoneNumber): (r: Option<KeyPhoneRow>)
    ensures r.None? <==> forall i :: 0 <= i < |rows| ==> !IsLiveRowOf(rows[i], userIDNum, pn)
    ensures r.Some? ==> exists i :: 0 <= i < |rows| && IsLiveRowOf(rows[i], userIDNum, pn) && rows[i] == r.value
  {
    if rows == [] then None
    else if IsLiveRowOf(rows[0], userIDNum, pn) then Some(rows[0])
    else
      var r := LiveRow(rows[1..], userIDNum, pn);
      assert forall i :: 1 <= i < |rows| ==> rows[1..][i - 1] == rows[i];
      r
  }

  /** The first row of the user for the number, deleted or not. */
  function AnyRow(rows: seq<KeyPhoneRow>, userIDNum: UserIds.UserIDNum, pn: PhoneNumber): (r: Option<KeyPhoneRow>)
    ensures r.Some? ==> r.value in rows && r.value.userIDNum == userIDNum && HasNumber(r.value, pn)
    ensures r.Some? && r.value.deletion.None? ==> r == LiveRow(rows, userIDNum, pn)
  {
    if rows == [] then None
    else if rows[0].userIDNum == userIDNum && HasNumber(rows[0], pn) then Some(rows[0])
    else AnyRow(rows[1..], userIDNum, pn)
  }

  /**
   * What setUserKeyPhoneNumber's SELECT reports as written: the verified flag of a row of
   * the user and number, without the md_d_ts IS NULL filter the other queries have, so a
   * deleted row may answer. The database gives no order; the first row stands for its pick.
   */
  function AlreadyVerifiedAsWritten(rows: seq<KeyPhoneRow>, userIDNum: UserIds.UserIDNum, pn: PhoneNumber): (r: bool)
    ensures r ==> exists i :: 0 <= i < |rows| && rows[i].userIDNum == userIDNum && HasNumber(rows[i], pn) && rows[i].verification.Some?
  {
    var row := AnyRow(rows, userIDNum, pn);
    row.Some? && row.value.verification.Some?
  }

  /** The verified flag of the live row the insert ran into: the row the number is kept in. */
  function AlreadyVerified(rows: seq<KeyPhoneRow>, userIDNum: UserIds.UserIDNum, pn: PhoneNumber): (r: bool)
    ensures r <==> exists i :: (0 <= i < |rows| && IsLiveRowOf(rows[i], userIDNum, pn) && rows[i].verification.Some? &&
                                rows[i] == LiveRow(rows, userIDNum, pn).value)
  {
    var row := LiveRow(rows, userIDNum, pn);
    row.Some? && row.value.verification.Some?
  }

  /** With a deleted confirmed row ahead of the live unconfirmed one, the query as written reports the number confirmed. */
  lemma AlreadyVerifiedReadsDeletedRow(pn: PhoneNumber, u: UserIds.UserIDNum, m: TerminalStore.Deletion)
    ensures var rows := [KeyPhoneRow(u, pn.countryCode, pn.nationalNumber, "", m, Some(m), Some(Verification(0, 1))),
                         KeyPhoneRow(u, pn.countryCode, pn.nationalNumber, "", m, None, None)];
      TableConstraints(rows) && AlreadyVerifiedAsWritten(rows, u, pn) && !AlreadyVerified(rows, u, pn)
  {
  }

  /** The rows after setUserKeyPhoneNumber's INSERT … ON CONFLICT DO NOTHING. */
  function InsertKeyPhoneNumber(rows: seq<KeyPhoneRow>, userIDNum: UserIds.UserIDNum, pn: PhoneNumber,
                                creation: TerminalStore.Deletion): (r: seq<KeyPhoneRow>)
  {
    if LiveRow(rows, userIDNum, pn).Some? then rows
    else rows + [KeyPhoneRow(userIDNum, pn.countryCode, pn.nationalNumber, pn.rawInput, creation, None, None)]
  }

  /** The insert keeps the constraints and leaves a live row of the user for the number. */
  lemma InsertKeepsConstraints(rows: seq<KeyPhoneRow>, userIDNum: UserIds.UserIDNum, pn: PhoneNumber,
                               creation: TerminalStore.Deletion)
    requires TableConstraints(rows)
    ensures TableConstraints(InsertKeyPhoneNumber(rows, userIDNum, pn, creation))
    ensures LiveRow(InsertKeyPhoneNumber(rows, userIDNum, pn, creation), userIDNum, pn).Some?
  {
    var r := InsertKeyPhoneNumber(rows, userIDNum, pn, creation);
    if LiveRow(rows, userIDNum, pn).None? {
      assert IsLiveRowOf(r[|rows|], userIDNum, pn);
    }
  }

  /** A second insert of the same user and number changes nothing. */
  lemma InsertIdempotent(rows: seq<KeyPhoneRow>, userIDNum: UserIds.UserIDNum, pn: PhoneNumber,
                         creation: TerminalStore.Deletion, creation': TerminalStore.Deletion)
    ensures var r := InsertKeyPhoneNumber(rows, userIDNum, pn, creation);
      InsertKeyPhoneNumber(r, userIDNum, pn, creation') == r
  {
    var r := InsertKeyPhoneNumber(rows, userIDNum, pn, creation);
    if LiveRow(rows, userIDNum, pn).None? {
      assert IsLiveRowOf(r[|rows|], userIDNum, pn);
    }
  }

  /** The rows of ensureUserPhoneNumberVerifiedFlag's UPDATE: the live unconfirmed row of the user and number is confirmed. */
  function ConfirmRows(rows: seq<KeyPhoneRow>, userIDNum: UserIds.UserIDNum, pn: PhoneNumber, v: Verification): (r: seq<KeyPhoneRow>)
    ensures |r| == |rows|
    ensures forall i :: 0 <= i < |rows| ==>
      r[i] == if IsLiveRowOf(rows[i], userIDNum, pn) && rows[i].verification.None? then rows[i].(verification := Some(v)) else rows[i]
  {
    seq(|rows|, i requires 0 <= i < |rows| =>
      if IsLiveRowOf(rows[i], userIDNum, pn) && rows[i].verification.None? then rows[i].(verification := Some(v)) else rows[i])
  }

  /** Rows the UPDATE would change. */
  predicate HasUnconfirmedRow(rows: seq<KeyPhoneRow>, userIDNum: UserIds.UserIDNum, pn: PhoneNumber)
  {
    exists i :: 0 <= i < |rows| && IsLiveRowOf(rows[i], userIDNum, pn) && rows[i].verification.None?
  }

  /** A confirmed live row of another user holds the number already: the unique index refuses the UPDATE. */
  predicate ConfirmConflicts(rows: seq<KeyPhoneRow>, userIDNum: UserIds.UserIDNum, pn: PhoneNumber)
  {
    HasUnconfirmedRow(rows, userIDNum, pn) &&
    exists j :: 0 <= j < |rows| && IsVerifiedKey(rows[j]) && HasNumber(rows[j], pn)
  }

  lemma ConfirmKeepsConstraints(rows: seq<KeyPhoneRow>, userIDNum: UserIds.UserIDNum, pn: PhoneNumber, v: Verification)
    requires TableConstraints(rows) && !ConfirmConflicts(rows, userIDNum, pn)
    ensures TableConstraints(ConfirmRows(rows, userIDNum, pn, v))
    ensures !HasUnconfirmedRow(ConfirmRows(rows, userIDNum, pn, v), userIDNum, pn)
  {
    var r := ConfirmRows(rows, userIDNum, pn, v);
    forall i, j | 0 <= i < j < |r| && IsVerifiedKey(r[i]) && IsVerifiedKey(r[j])
      ensures r[i].countryCode != r[j].countryCode || r[i].nationalNumber != r[j].nationalNumber
    {
      if IsLiveRowOf(rows[i], userIDNum, pn) && rows[i].verification.None? {
        UnconfirmedWitness(rows, userIDNum, pn, i);
      }
      if IsLiveRowOf(rows[j], userIDNum, pn) && rows[j].verification.None? {
        UnconfirmedWitness(rows, userIDNum, pn, j);
      }
    }
  }

  lemma UnconfirmedWitness(rows: seq<KeyPhoneRow>, userIDNum: UserIds.UserIDNum, pn: PhoneNumber, i: nat)
    requires i < |rows| && IsLiveRowOf(rows[i], userIDNum, pn) && rows[i].verification.None?
    ensures HasUnconfirmedRow(rows, userIDNum, pn)
  {
  }

  /** The outcome of pnVerifier.StartVerification. */
  datatype StartOutcome =
    | Started(verificationID: int, codeExpiry: int)
    | InvalidPhoneNumber(cause: AzError)
    | StartFailed(cause: AzError)

  /** The outcome of pnVerifier.ConfirmVerification. */
  datatype ConfirmOutcome = Confirmed | CodeMismatch | CodeExpired | ConfirmFailed(cause: AzError)

  /** The result of ConfirmUserPhoneNumberVerification, with the two panics it raises on a broken state. */
  datatype ConfirmResult = StateChanged(changed: bool) | Refused(err: AzError) | Panicked

  class KeyPhoneNumberTable {
    var rows: seq<KeyPhoneRow>

    ghost predicate Valid()
      reads this
    {
      TableConstraints(rows)
    }

    constructor ()
      ensures rows == [] && Valid()
    {
      rows := [];
    }

    /** getUserKeyPhoneNumberInsecure: the user's confirmed live number, without its raw input, or None. */
    function GetUserKeyPhoneNumber(userIDNum: UserIds.UserIDNum): (r: Option<PhoneNumber>)
      reads this
      ensures r.Some? ==> exists i :: (0 <= i < |rows| && IsVerifiedKey(rows[i]) && rows[i].userIDNum == userIDNum &&
                                       r.value == NewPhoneNumber(rows[i].countryCode, rows[i].nationalNumber))
      ensures r.None? ==> forall i :: 0 <= i < |rows| ==> !(IsVerifiedKey(rows[i]) && rows[i].userIDNum == userIDNum)
    {
      KeyOf(rows, userIDNum)
    }

    /** getUserIDNumByKeyPhoneNumberInsecure: the user whose confirmed number this is, or zero. */
    function GetUserIDNumByKeyPhoneNumber(pn: PhoneNumber): (r: UserIds.UserIDNum)
      reads this
      ensures Valid() ==> forall i :: 0 <= i < |rows| && IsVerifiedKey(rows[i]) && HasNumber(rows[i], pn) ==> r == rows[i].userIDNum
      ensures (forall i :: 0 <= i < |rows| ==> !(IsVerifiedKey(rows[i]) && HasNumber(rows[i], pn))) ==> r == UserIds.NumZero
    {
      var r := VerifiedOwner(rows, pn);
      assert Valid() ==> forall i :: 0 <= i < |rows| && IsVerifiedKey(rows[i]) && HasNumber(rows[i], pn) ==> r == rows[i].userIDNum by {
        if Valid() {
          forall i | 0 <= i < |rows| && IsVerifiedKey(rows[i]) && HasNumber(rows[i], pn)
            ensures r == rows[i].userIDNum
          {
            VerifiedOwnerOfRow(rows, pn, i);
          }
        }
      }
      r
    }

    /** getUserIDByKeyPhoneNumberAllowUnverifiedInsecure, the database error left out. */
    function GetUserIDByKeyPhoneNumberAllowUnverified(pn: PhoneNumber): (r: NumberOwner)
      reads this
      ensures Valid() && r.alreadyVerified ==> r.ownerUserID.idNum == GetUserIDNumByKeyPhoneNumber(pn)
      ensures r.ownerUserID.idNum != UserIds.NumZero ==>
        (exists i :: 0 <= i < |rows| && IsLiveNumberRow(rows[i], pn) && rows[i].userIDNum == r.ownerUserID.idNum)
    {
      var r := NumberOwnerAllowUnverified(rows, pn);
      assert Valid() && r.alreadyVerified ==> r.ownerUserID.idNum == VerifiedOwner(rows, pn) by {
        if Valid() {
          ConfirmedAnswerIsOwner(rows, pn);
        }
      }
      r
    }

    /**
     * setUserKeyPhoneNumber: inserts the number for the user unless a live row of theirs
     * holds it, and reports whether that existing row is confirmed.
     */
    method SetKeyPhoneNumberRow(ctx: Authorizations.Authorization, userID: UserIds.UserID, pn: PhoneNumber, ctxTime: int)
      returns (alreadyVerified: bool)
      requires Valid()
      modifies this
      ensures Valid()
      ensures rows == InsertKeyPhoneNumber(old(rows), userID.idNum, pn,
                                           TerminalStore.Deletion(ctxTime, ctx.TerminalIDNum(), ctx.UserIDNum()))
      ensures alreadyVerified == AlreadyVerified(old(rows), userID.idNum, pn)
      ensures LiveRow(rows, userID.idNum, pn).Some?
    {
      var creation := TerminalStore.Deletion(ctxTime, ctx.TerminalIDNum(), ctx.UserIDNum());
      InsertKeepsConstraints(rows, userID.idNum, pn, creation);
      if LiveRow(rows, userID.idNum, pn).None? {
        rows := rows + [KeyPhoneRow(userID.idNum, pn.countryCode, pn.nationalNumber, pn.rawInput, creation, None, None)];
        return false;
      }
      alreadyVerified := AlreadyVerified(rows, userID.idNum, pn);
    }

    /**
     * SetUserKeyPhoneNumber: a user subject adds a number to their own account. A number
     * confirmed for another user is a conflict; one confirmed for the caller, or an added
     * row that is already confirmed, needs nothing more; otherwise the verifier's start
     * (`start`) decides the result.
     */
    method SetUserKeyPhoneNumber(ctx: Authorizations.Authorization, userID: UserIds.UserID, pn: PhoneNumber,
                                 start: StartOutcome, ctxTime: int)
      returns (verificationID: int, verificationCodeExpiry: Option<int>, err: Option<AzError>)
      requires Valid()
      modifies this
      ensures Valid()
      ensures !ctx.IsUserSubject() ==>
        (verificationID, verificationCodeExpiry, err) == (0, None, Some(Authorizations.ErrUserContextRequired)) && rows == old(rows)
      ensures ctx.IsUserSubject() && !ctx.IsUser(userID) ==>
        (verificationID, verificationCodeExpiry, err) == (0, None, Some(Authorizations.ErrOperationNotAllowed)) && rows == old(rows)
      ensures ctx.IsUserSubject() && ctx.IsUser(userID) ==>
        var owner := VerifiedOwner(old(rows), pn);
        (UserIds.NumIsStaticallyValid(owner) && owner != ctx.UserIDNum() ==>
           (verificationID, verificationCodeExpiry, err) == (0, None, Some(ErrPhoneNumberConflict)) && rows == old(rows)) &&
        (UserIds.NumIsStaticallyValid(owner) && owner == ctx.UserIDNum() ==>
           (verificationID, verificationCodeExpiry, err) == (0, None, None) && rows == old(rows)) &&
        (!UserIds.NumIsStaticallyValid(owner) ==>
           rows == InsertKeyPhoneNumber(old(rows), ctx.UserIDNum(), pn,
                                        TerminalStore.Deletion(ctxTime, ctx.TerminalIDNum(), ctx.UserIDNum())) &&
           (verificationID, verificationCodeExpiry, err) ==
             if AlreadyVerified(old(rows), ctx.UserIDNum(), pn) then (0, None, None)
             else match start
                  case Started(id, expiry) => (id, Some(expiry), None)
                  case InvalidPhoneNumber(e) => (0, None, Some(Arg("phoneNumber", e)))
                  case StartFailed(e) => (0, None, Some(Wrap("pnVerifier.StartVerification", e))))
      ensures err.None? && ctx.IsUserSubject() && ctx.IsUser(userID) ==>
        LiveRow(rows, userID.idNum, pn).Some? || old(VerifiedOwner(rows, pn)) == userID.idNum
    {
      if !ctx.IsUserSubject() {
        return 0, None, Some(Authorizations.ErrUserContextRequired);
      }
      if !ctx.IsUser(userID) {
        return 0, None, Some(Authorizations.ErrOperationNotAllowed);
      }
      var existingOwnerUserIDNum := VerifiedOwner(rows, pn);
      if UserIds.NumIsStaticallyValid(existingOwnerUserIDNum) {
        if existingOwnerUserIDNum != ctx.UserIDNum() {
          return 0, None, Some(ErrPhoneNumberConflict);
        }
        return 0, None, None;
      }
      var alreadyVerified := SetKeyPhoneNumberRow(ctx, ctx.UserID(), pn, ctxTime);
      if alreadyVerified {
        return 0, None, None;
      }
      match start
      case Started(id, expiry) =>
        verificationID, verificationCodeExpiry, err := id, Some(expiry), None;
      case InvalidPhoneNumber(e) =>
        return 0, None, Some(Arg("phoneNumber", e));
      case StartFailed(e) =>
        return 0, None, Some(Wrap("pnVerifier.StartVerification", e));
    }

    /**
     * ensureUserPhoneNumberVerifiedFlag: confirms the user's live unconfirmed row for the
     * number. True when a row changed; a number confirmed for another user is a conflict
     * and changes nothing.
     */
    method EnsureUserPhoneNumberVerifiedFlag(userIDNum: UserIds.UserIDNum, pn: PhoneNumber,
                                             verificationTime: int, verificationID: int)
      returns (stateChanged: bool, err: Option<AzError>)
      requires Valid()
      modifies this
      ensures Valid()
      ensures ConfirmConflicts(old(rows), userIDNum, pn) ==>
        !stateChanged && err == Some(ErrPhoneNumberConflict) && rows == old(rows)
      ensures !ConfirmConflicts(old(rows), userIDNum, pn) ==>
        err.None? && rows == ConfirmRows(old(rows), userIDNum, pn, Verification(verificationTime, verificationID)) &&
        (stateChanged <==> HasUnconfirmedRow(old(rows), userIDNum, pn))
      ensures !HasUnconfirmedRow(old(rows), userIDNum, pn) ==> !stateChanged && err.None? && rows == old(rows)
      ensures err.None? ==> !HasUnconfirmedRow(rows, userIDNum, pn)
    {
      if ConfirmConflicts(rows, userIDNum, pn) {
        return false, Some(ErrPhoneNumberConflict);
      }
      var v := Verification(verificationTime, verificationID);
      var oldRows := rows;
      ConfirmKeepsConstraints(rows, userIDNum, pn, v);
      stateChanged := HasUnconfirmedRow(rows, userIDNum, pn);
      rows := ConfirmRows(rows, userIDNum, pn, v);
      if !stateChanged {
        assert rows == oldRows;
      }
      err := None;
    }

    /**
     * ConfirmUserPhoneNumberVerification: the verifier checks the code (`confirm`) and
     * gives the number it was sent to (`lookup`); the number is then confirmed for the
     * context's user. A failed lookup or a failed confirm of the row is a panic.
     */
    method ConfirmUserPhoneNumberVerification(ctx: Authorizations.Authorization, verificationID: int,
                                              confirm: ConfirmOutcome, lookup: Result<PhoneNumber, AzError>, ctxTime: int)
      returns (r: ConfirmResult)
      requires Valid()
      modifies this
      ensures Valid()
      ensures confirm == CodeMismatch ==> r == Refused(ErrCodeMismatch) && rows == old(rows)
      ensures confirm == CodeExpired ==> r == Refused(ErrCodeExpired) && rows == old(rows)
      ensures confirm.ConfirmFailed? ==> r == Refused(Wrap("pnVerifier.ConfirmVerification", confirm.cause)) && rows == old(rows)
      ensures confirm == Confirmed && lookup.Err? ==> r == Panicked && rows == old(rows)
      ensures confirm == Confirmed && lookup.Ok? && ConfirmConflicts(old(rows), ctx.UserIDNum(), lookup.value) ==>
        r == Panicked && rows == old(rows)
      ensures confirm == Confirmed && lookup.Ok? && !ConfirmConflicts(old(rows), ctx.UserIDNum(), lookup.value) ==>
        rows == ConfirmRows(old(rows), ctx.UserIDNum(), lookup.value, Verification(ctxTime, verificationID)) &&
        r == StateChanged(HasUnconfirmedRow(old(rows), ctx.UserIDNum(), lookup.value))
    {
      match confirm
      case CodeMismatch => return Refused(ErrCodeMismatch);
      case CodeExpired => return Refused(ErrCodeExpired);
      case ConfirmFailed(e) => return Refused(Wrap("pnVerifier.ConfirmVerification", e));
      case Confirmed =>
        if lookup.Err? {
          return Panicked;
        }
        var changed, err := EnsureUserPhoneNumberVerifiedFlag(ctx.UserIDNum(), lookup.value, ctxTime, verificationID);
        if err.Some? {
          return Panicked;
        }
        r := StateChanged(changed);
    }
  }

  /** A row holding the number that is not deleted, whoever's it is. */
  predicate IsLiveNumberRow(row: KeyPhoneRow, pn: PhoneNumber)
  {
    HasNumber(row, pn) && row.deletion.None?
  }

  /**
   * The newest live row with the number, by md_c_ts. The database picks among rows
   * created at the same time; the model picks the first of them.
   */
  function NewestLiveRow(rows: seq<KeyPhoneRow>, pn: PhoneNumber): (r: Option<KeyPhoneRow>)
    ensures r.None? <==> forall i :: 0 <= i < |rows| ==> !IsLiveNumberRow(rows[i], pn)
    ensures r.Some? ==> exists i :: 0 <= i < |rows| && rows[i] == r.value && IsLiveNumberRow(rows[i], pn)
    ensures r.Some? ==> forall i :: 0 <= i < |rows| && IsLiveNumberRow(rows[i], pn) ==> rows[i].creation.time <= r.value.creation.time
  {
    if rows == [] then None
    else
      var rest := NewestLiveRow(rows[1..], pn);
      assert forall i :: 1 <= i < |rows| ==> rows[1..][i - 1] == rows[i];
      if IsLiveNumberRow(rows[0], pn) && (rest.None? || rest.value.creation.time <= rows[0].creation.time) then Some(rows[0])
      else rest
  }

  /**
   * What getUserIDByKeyPhoneNumberAllowUnverifiedInsecure reports: the user of the newest
   * live row with the number and whether that row is confirmed; the zero id and false when
   * there is no such row.
   */
  datatype NumberOwner = NumberOwner(ownerUserID: UserIds.UserID, alreadyVerified: bool)

  function NumberOwnerAllowUnverified(rows: seq<KeyPhoneRow>, pn: PhoneNumber): (r: NumberOwner)
    ensures (forall i :: 0 <= i < |rows| ==> !IsLiveNumberRow(rows[i], pn)) ==>
      r == NumberOwner(UserIds.UserID(UserIds.NumZero), false)
    ensures r.alreadyVerified ==> (exists i :: 0 <= i < |rows| && IsVerifiedKey(rows[i]) && HasNumber(rows[i], pn) &&
                                            rows[i].userIDNum == r.ownerUserID.idNum)
  {
    match NewestLiveRow(rows, pn)
    case None => NumberOwner(UserIds.UserID(UserIds.NumZero), false)
    case Some(row) => NumberOwner(UserIds.UserID(row.userIDNum), row.verification.Some?)
  }

  /**
   * A confirmed answer names the number's owner, the user getUserIDNumByKeyPhoneNumberInsecure
   * finds; an unconfirmed one may name another user who has only added the number.
   */
  lemma ConfirmedAnswerIsOwner(rows: seq<KeyPhoneRow>, pn: PhoneNumber)
    requires TableConstraints(rows)
    ensures var r := NumberOwnerAllowUnverified(rows, pn);
      r.alreadyVerified ==> r.ownerUserID.idNum == VerifiedOwner(rows, pn)
  {
    var r := NumberOwnerAllowUnverified(rows, pn);
    if r.alreadyVerified {
      var i :| 0 <= i < |rows| && IsVerifiedKey(rows[i]) && HasNumber(rows[i], pn) && rows[i].userIDNum == r.ownerUserID.idNum;
      VerifiedOwnerOfRow(rows, pn, i);
    }
  }

  /** The first confirmed live number of the user. */
  function KeyOf(rows: seq<KeyPhoneRow>, userIDNum: UserIds.UserIDNum): (r: Option<PhoneNumber>)
    ensures r.Some? ==> exists i :: (0 <= i < |rows| && IsVerifiedKey(rows[i]) && rows[i].userIDNum == userIDNum &&
                                     r.value == NewPhoneNumber(rows[i].countryCode, rows[i].nationalNumber))
    ensures r.None? ==> forall i :: 0 <= i < |rows| ==> !(IsVerifiedKey(rows[i]) && rows[i].userIDNum == userIDNum)
  {
    if rows == [] then None
    else if IsVerifiedKey(rows[0]) && rows[0].userIDNum == userIDNum then
      Some(NewPhoneNumber(rows[0].countryCode, rows[0].nationalNumber))
    else
      var r := KeyOf(rows[1..], userIDNum);
      assert forall i :: 1 <= i < |rows| ==> rows[1..][i - 1] == rows[i];
      r
  }

  /** Confirming twice: the second confirmation changes nothing and reports no change. */
  lemma ConfirmTwice(rows: seq<KeyPhoneRow>, userIDNum: UserIds.UserIDNum, pn: PhoneNumber, v: Verification, v': Verification)
    requires TableConstraints(rows) && !ConfirmConflicts(rows, userIDNum, pn)
    ensures var once := ConfirmRows(rows, userIDNum, pn, v);
      !HasUnconfirmedRow(once, userIDNum, pn) && !ConfirmConflicts(once, userIDNum, pn) &&
      ConfirmRows(once, userIDNum, pn, v') == once
  {
    ConfirmKeepsConstraints(rows, userIDNum, pn, v);
  }
}
