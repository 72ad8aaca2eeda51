/** The e-mail verification page (VerifyOTP.tsx): the user id the older
    registration form stored is honoured for three minutes and removed once
    it is older; the page moves on to the login only on the server's exact
    success message. */
module VerifyOtp {

  import opened Wrappers
  import opened ResumeData
  import BrowserStorage

  /** `3 * 60 * 1000` milliseconds. */
  const TimeLimit := 180000
  const Verified := "User email verified successfully."

  /** What `checkAndClearLocalStorage` gives back: `null`, the stored
      `userId` (undefined when the record has none), or a thrown parse
      error for a value that is not the stamped record. */
  datatype Lookup = NoId | UserId(value: Option<string>) | ParseError

  /** The result of the check at time `now` on the stored items. */
  function CheckResult(items: map<string, BrowserStorage.Stored>, now: int): (r: Lookup)
    ensures "userId" !in items ==> r == NoId
    ensures "userId" in items && items["userId"].Stamped? ==>
      (r == NoId <==> now - items["userId"].timestamp > TimeLimit)
  {
    if "userId" !in items then NoId
    else match items["userId"]
      case Plain(text) => if text == "" then NoId else ParseError
      case Stamped(userId, timestamp) => if now - timestamp > TimeLimit then NoId else UserId(userId)
  }

  /** The stored items after the check: an expired record is removed,
      anything else stays. */
  function ItemsAfterCheck(items: map<string, BrowserStorage.Stored>, now: int): (r: map<string, BrowserStorage.Stored>)
    ensures r == items || r == items - {"userId"}
    ensures "userId" in items && items["userId"].Stamped? && now - items["userId"].timestamp > TimeLimit
      ==> "userId" !in r
    ensures "userId" in r ==> r["userId"] == items["userId"]
  {
    if "userId" in items && items["userId"].Stamped? && now - items["userId"].timestamp > TimeLimit then items - {"userId"}
    else items
  }

  /** A record exactly three minutes old is still honoured and kept; one a
      millisecond older is removed and gives no id. */
  lemma ExpiryBoundary(items: map<string, BrowserStorage.Stored>, userId: Option<string>, t: int)
    requires "userId" in items && items["userId"] == BrowserStorage.Stamped(userId, t)
    ensures CheckResult(items, t + TimeLimit) == UserId(userId)
    ensures ItemsAfterCheck(items, t + TimeLimit) == items
    ensures CheckResult(items, t + TimeLimit + 1) == NoId
    ensures "userId" !in ItemsAfterCheck(items, t + TimeLimit + 1)
  {
  }

  /** Checking again at the same time gives nothing new once the record has
      expired, and gives the same id when it has not. */
  lemma CheckTwice(items: map<string, BrowserStorage.Stored>, now: int)
    requires CheckResult(items, now) != ParseError
    ensures CheckResult(ItemsAfterCheck(items, now), now) == CheckResult(items, now)
    ensures ItemsAfterCheck(ItemsAfterCheck(items, now), now) == ItemsAfterCheck(items, now)
  {
  }

  class VerifyOtpPage {
    var errorMessage: Option<string>
    var isVerified: bool
    var navigatedTo: Option<string>
    const storage: BrowserStorage.LocalStorage

    constructor(storage: BrowserStorage.LocalStorage)
      ensures this.storage == storage && errorMessage == Some("") && !isVerified && navigatedTo.None?
    {
      this.storage := storage;
      errorMessage := Some("");
      isVerified := false;
      navigatedTo := None;
    }

    /** `checkAndClearLocalStorage` at time `now`. */
    method CheckAndClearLocalStorage(now: int) returns (r: Lookup)
      modifies storage
      ensures r == CheckResult(old(storage.items), now)
      ensures storage.items == ItemsAfterCheck(old(storage.items), now)
    {
      var stored := storage.GetItem("userId");
      if stored.None? {
        return NoId;
      }
      match stored.value
      case Plain(text) =>
        r := if text == "" then NoId else ParseError;
      case Stamped(userId, timestamp) =>
        if now - timestamp > TimeLimit {
          storage.RemoveItem("userId");
          return NoId;
        }
        r := UserId(userId);
    }

    /** `handleVerification`: the id found (or `null`) is sent with the
        code; `reply` carries the server's `message`. A parse error or a
        failed request is only logged. Returns the id sent, if any request
        was made. */
    method HandleVerification(now: int, reply: Reply<Option<string>>) returns (sent: Option<Lookup>)
      modifies this, storage
      ensures storage.items == ItemsAfterCheck(old(storage.items), now)
      ensures sent.Some? <==> CheckResult(old(storage.items), now) != ParseError
      ensures sent.Some? ==> sent.value == CheckResult(old(storage.items), now)
      ensures navigatedTo == (if sent.Some? && Succeeded(reply) && reply.body == Some(Verified) then Some("/login") else old(navigatedTo))
      ensures sent.Some? && Succeeded(reply) && reply.body != Some(Verified) ==> errorMessage == reply.body && !isVerified
      ensures !(sent.Some? && Succeeded(reply) && reply.body != Some(Verified)) ==>
        errorMessage == old(errorMessage) && isVerified == old(isVerified)
    {
      var userId := CheckAndClearLocalStorage(now);
      if userId == ParseError {
        return None;
      }
      sent := Some(userId);
      if Succeeded(reply) {
        if reply.body == Some(Verified) {
          navigatedTo := Some("/login");
        } else {
          errorMessage := reply.body;
          isVerified := false;
        }
      }
    }
  }
}
