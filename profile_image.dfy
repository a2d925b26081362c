// User profile images (pkg/iam/pkg/iamserver/core_user_profile_image.go): the URL the
// server gives out for a stored image key, and the table of image keys, one live key per
// user, that a user replaces or clears.
module ProfileImages {
  import opened Wrappers
  import opened AzId
  import opened Strings
  import UserIds
  import TerminalIds
  import Authorizations
  import TerminalStore

  /** Keys that are already absolute http or https URLs. */
  predicate IsAbsoluteURL(imageKey: string)
  {
    HasPrefix(imageKey, "https://") || HasPrefix(imageKey, "http://")
  }

  /**
   * BuildUserProfileImageURL. `imagesBaseURL` is the media store's ImagesBaseURL, or None
   * when the server has no media store. An absolute key, or a key with no base to put it
   * under, is given out as it is; any other key goes under the base, with exactly one '/'
   * between the base (less one trailing '/') and the key (less one leading '/').
   */
  function BuildUserProfileImageURL(imagesBaseURL: Option<string>, imageKey: string): (r: string)
    ensures IsAbsoluteURL(imageKey) || imagesBaseURL == None || imagesBaseURL == Some("") ==> r == imageKey
    ensures !IsAbsoluteURL(imageKey) && imagesBaseURL.Some? && imagesBaseURL.value != "" ==>
      r == TrimSuffix(imagesBaseURL.value, "/") + "/" + TrimPrefix(imageKey, "/")
    ensures HasSuffix(r, imageKey)
  {
    if !HasPrefix(imageKey, "https://") && !HasPrefix(imageKey, "http://") then
      var base := if imagesBaseURL.Some? then imagesBaseURL.value else "";
      if base != "" then
        var trimmed := TrimSuffix(base, "/");
        if HasPrefix(imageKey, "/") then
          var r := trimmed + imageKey;
          assert imageKey == "/" + TrimPrefix(imageKey, "/");
          assert r == trimmed + "/" + TrimPrefix(imageKey, "/");
          assert r[|r| - |imageKey|..] == imageKey;
          r
        else
          var r := trimmed + "/" + imageKey;
          assert r[|r| - |imageKey|..] == imageKey;
          r
      else imageKey
    else imageKey
  }

  /** A key starting with '/' is appended to the base as it is. */
  lemma SlashKeyAppended(base: string, imageKey: string)
    requires base != "" && HasPrefix(imageKey, "/")
    ensures BuildUserProfileImageURL(Some(base), imageKey) == TrimSuffix(base, "/") + imageKey
  {
    assert !IsAbsoluteURL(imageKey) by {
      assert imageKey[0] == '/';
    }
    assert imageKey == "/" + TrimPrefix(imageKey, "/");
    assert TrimSuffix(base, "/") + "/" + TrimPrefix(imageKey, "/") == TrimSuffix(base, "/") + ("/" + TrimPrefix(imageKey, "/"));
  }

  /** A relative key never starts the URL when there is a base: the base does. */
  lemma BaseComesFirst(base: string, imageKey: string)
    requires base != "" && !IsAbsoluteURL(imageKey)
    ensures HasPrefix(BuildUserProfileImageURL(Some(base), imageKey), TrimSuffix(base, "/") + "/")
  {
    PrefixOfConcat(TrimSuffix(base, "/") + "/", TrimPrefix(imageKey, "/"));
  }

  const ErrProfileImageURLUnsupported: AzError := ArgMsg("profileImageURL", "unsupported")

  /** A row of user_profile_image_key_dt, with the creating user and terminal. */
  datatype ImageRow = ImageRow(
    userIDNum: UserIds.UserIDNum,
    profileImageKey: string,
    creatorUserIDNum: UserIds.UserIDNum,
    creatorTerminalIDNum: TerminalIds.TerminalIDNum,
    deletion: Option<TerminalStore.Deletion>)

  predicate IsLiveRowOf(row: ImageRow, userIDNum: UserIds.UserIDNum)
  {
    row.userIDNum == userIDNum && row.deletion.None?
  }

  /** The rows after the UPDATE that stamps each live row of the user with the deletion. */
  function DeleteLiveRows(rows: seq<ImageRow>, userIDNum: UserIds.UserIDNum, deletion: TerminalStore.Deletion): (r: seq<ImageRow>)
    ensures |r| == |rows|
    ensures forall i :: 0 <= i < |rows| ==> r[i].userIDNum == rows[i].userIDNum && r[i].profileImageKey == rows[i].profileImageKey
    ensures forall i :: 0 <= i < |rows| ==> !IsLiveRowOf(r[i], userIDNum)
    ensures forall i :: 0 <= i < |rows| && rows[i].userIDNum != userIDNum ==> r[i] == rows[i]
  {
    seq(|rows|, i requires 0 <= i < |rows| =>
      if IsLiveRowOf(rows[i], userIDNum) then rows[i].(deletion := Some(deletion)) else rows[i])
  }

  /** The key of the user's first live row, or "" when there is none. */
  function LiveKey(rows: seq<ImageRow>, userIDNum: UserIds.UserIDNum): (r: string)
    ensures (forall i :: 0 <= i < |rows| ==> !IsLiveRowOf(rows[i], userIDNum)) ==> r == ""
    ensures r != "" ==> exists i :: 0 <= i < |rows| && IsLiveRowOf(rows[i], userIDNum) && rows[i].profileImageKey == r
  {
    if rows == [] then ""
    else if IsLiveRowOf(rows[0], userIDNum) then rows[0].profileImageKey
    else
      var r := LiveKey(rows[1..], userIDNum);
      assert forall i :: 1 <= i < |rows| ==> rows[1..][i - 1] == rows[i];
      r
  }

  lemma {:induction false} LiveKeyOfOnlyRow(rows: seq<ImageRow>, userIDNum: UserIds.UserIDNum, j: nat)
    requires j < |rows| && IsLiveRowOf(rows[j], userIDNum)
    requires forall i :: 0 <= i < |rows| && i != j ==> !IsLiveRowOf(rows[i], userIDNum)
    ensures LiveKey(rows, userIDNum) == rows[j].profileImageKey
  {
    if j > 0 {
      assert !IsLiveRowOf(rows[0], userIDNum);
      LiveKeyOfOnlyRow(rows[1..], userIDNum, j - 1);
    }
  }

  lemma {:induction false} LiveKeyOfOtherUser(rows: seq<ImageRow>, rows': seq<ImageRow>, userIDNum: UserIds.UserIDNum)
    requires |rows| <= |rows'|
    requires forall i :: 0 <= i < |rows| ==> (rows[i].userIDNum == userIDNum || rows'[i].userIDNum == userIDNum ==> rows'[i] == rows[i])
    requires forall i :: |rows| <= i < |rows'| ==> rows'[i].userIDNum != userIDNum
    ensures LiveKey(rows', userIDNum) == LiveKey(rows, userIDNum)
  {
    if rows == [] {
      assert forall i :: 0 <= i < |rows'| ==> !IsLiveRowOf(rows'[i], userIDNum);
    } else {
      LiveKeyOfOtherUser(rows[1..], rows'[1..], userIDNum);
    }
  }

  predicate OneLiveRowPerUser(rows: seq<ImageRow>)
  {
    forall i, j :: 0 <= i < j < |rows| && rows[i].userIDNum == rows[j].userIDNum ==>
      rows[i].deletion.Some? || rows[j].deletion.Some?
  }

  /** Soft-deleting the user's live rows and adding at most one row of theirs keeps one live row per user. */
  lemma ReplaceKeepsOneLiveRow(rows: seq<ImageRow>, userIDNum: UserIds.UserIDNum, deletion: TerminalStore.Deletion, added: seq<ImageRow>)
    requires OneLiveRowPerUser(rows)
    requires |added| <= 1 && forall i :: 0 <= i < |added| ==> added[i].userIDNum == userIDNum
    ensures OneLiveRowPerUser(DeleteLiveRows(rows, userIDNum, deletion) + added)
  {
    var deleted := DeleteLiveRows(rows, userIDNum, deletion);
    var r := deleted + added;
    forall i, j | 0 <= i < j < |r| && r[i].userIDNum == r[j].userIDNum
      ensures r[i].deletion.Some? || r[j].deletion.Some?
    {
      if j >= |deleted| {
        assert r[i] == deleted[i] && !IsLiveRowOf(deleted[i], userIDNum);
      } else {
        assert r[i] == deleted[i] && r[j] == deleted[j];
      }
    }
  }

  class ProfileImageTable {
    var rows: seq<ImageRow>

    /** Each user has at most one live image key. */
    ghost predicate Valid()
      reads this
    {
      OneLiveRowPerUser(rows)
    }

    constructor ()
      ensures rows == [] && Valid()
    {
      rows := [];
    }

    /** The user's current image key; "" when none is set. */
    function ProfileImageKey(userIDNum: UserIds.UserIDNum): (r: string)
      reads this
      ensures (forall i :: 0 <= i < |rows| ==> !IsLiveRowOf(rows[i], userIDNum)) ==> r == ""
    {
      LiveKey(rows, userIDNum)
    }

    /**
     * SetUserProfileImageURL: only a user subject may set an image, and only their own;
     * a URL the server does not allow is refused. The current key is soft-deleted, and a
     * non-empty URL becomes the new key, so "" clears the image.
     * `urlAllowed` is isUserProfileImageURLAllowed's answer for the URL.
     */
    method SetUserProfileImageURL(ctx: Authorizations.Authorization, userID: UserIds.UserID, profileImageURL: string,
                                  urlAllowed: bool, ctxTime: int)
      returns (err: Option<AzError>)
      requires Valid()
      modifies this
      ensures Valid()
      ensures !ctx.IsUserSubject() ==> err == Some(Authorizations.ErrUserContextRequired) && rows == old(rows)
      ensures ctx.IsUserSubject() && !ctx.IsUser(userID) ==> err == Some(Authorizations.ErrOperationNotAllowed) && rows == old(rows)
      ensures ctx.IsUserSubject() && ctx.IsUser(userID) && profileImageURL != "" && !urlAllowed ==>
        err == Some(ErrProfileImageURLUnsupported) && rows == old(rows)
      ensures ctx.IsUserSubject() && ctx.IsUser(userID) && (profileImageURL == "" || urlAllowed) ==>
        var deleted := DeleteLiveRows(old(rows), ctx.UserIDNum(),
                                      TerminalStore.Deletion(ctxTime, ctx.TerminalIDNum(), ctx.UserIDNum()));
        err.None? &&
        rows == deleted + (if profileImageURL == "" then []
                           else [ImageRow(ctx.UserIDNum(), profileImageURL, ctx.UserIDNum(), ctx.TerminalIDNum(), None)])
      ensures err.None? ==> ProfileImageKey(userID.idNum) == profileImageURL
      ensures forall u :: u != userID.idNum ==> ProfileImageKey(u) == old(ProfileImageKey(u))
    {
      if !ctx.IsUserSubject() {
        return Some(Authorizations.ErrUserContextRequired);
      }
      if !ctx.IsUser(userID) {
        return Some(Authorizations.ErrOperationNotAllowed);
      }
      if profileImageURL != "" && !urlAllowed {
        return Some(ErrProfileImageURLUnsupported);
      }
      var userIDNum := ctx.UserIDNum();
      assert userIDNum == userID.idNum;
      var oldRows := rows;
      var deletion := TerminalStore.Deletion(ctxTime, ctx.TerminalIDNum(), userIDNum);
      var added := if profileImageURL == "" then [] else [ImageRow(userIDNum, profileImageURL, userIDNum, ctx.TerminalIDNum(), None)];
      ReplaceKeepsOneLiveRow(rows, userIDNum, deletion, added);
      rows := DeleteLiveRows(rows, userIDNum, deletion) + added;
      if profileImageURL != "" {
        LiveKeyOfOnlyRow(rows, userIDNum, |rows| - 1);
      } else {
        assert rows == DeleteLiveRows(oldRows, userIDNum, deletion);
      }
      forall u | u != userIDNum
        ensures LiveKey(rows, u) == LiveKey(oldRows, u)
      {
        LiveKeyOfOtherUser(oldRows, rows, u);
      }
      err := None;
    }
  }
}
