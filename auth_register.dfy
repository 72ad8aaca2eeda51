/** The registration page (auth/RegisterForm.tsx): the name fields keep
    only letters and spaces, and `handleRegister` checks the password
    pattern, then the confirmation, before it sends anything. */
module AuthRegister {

  import opened Wrappers
  import opened ResumeData
  import PasswordCriteria
  import BrowserStorage
  import ListOps

  /** A character `/[^A-Za-z ]/gi` leaves in place. */
  predicate IsNameChar(c: char) {
    ('A' <= c <= 'Z') || ('a' <= c <= 'z') || c == ' '
  }

  /** `value.replace(/[^A-Za-z ]/gi, '')`: the ASCII letters and spaces of
      the input, in order. */
  function NameFilter(value: string): (r: string)
    ensures forall k :: 0 <= k < |r| ==> IsNameChar(r[k]) && r[k] in value
    ensures forall k :: 0 <= k < |value| && IsNameChar(value[k]) ==> value[k] in r
  {
    ListOps.Filter(value, IsNameChar)
  }

  /** Filtering a name twice changes nothing more; a name of letters and
      spaces is kept as typed; the filter works piecewise, keeping the
      order of what it keeps. */
  lemma NameFilterProperties(value: string, more: string)
    ensures NameFilter(NameFilter(value)) == NameFilter(value)
    ensures (forall k :: 0 <= k < |value| ==> IsNameChar(value[k])) <==> NameFilter(value) == value
    ensures NameFilter(value + more) == NameFilter(value) + NameFilter(more)
  {
    ListOps.FilterIdempotent(value, IsNameChar);
    ListOps.FilterAll(value, IsNameChar);
    ListOps.FilterAppend(value, more, IsNameChar);
  }

  const WeakPassword := "Password must contain at least 8 characters, one uppercase letter, one lowercase letter, and one number"
  const Mismatch := "Passwords do not match"
  const RegistrationFailed := "Registration failed"

  /** The body of the reply to `/register`; on an error status only its
      `message` is read. */
  datatype RegisterBody = RegisterBody(success: bool, message: Option<string>, userId: string)

  /** `message || 'Registration failed'`. */
  function OrDefault(message: Option<string>): (r: string)
    ensures r != []
    ensures message.Some? && message.value != [] ==> r == message.value
  {
    if message.Some? && message.value != [] then message.value else RegistrationFailed
  }

  /** What the page ends with after a request: the error, the stored user
      id and where it navigates. */
  function RegisterOutcome(reply: Reply<RegisterBody>): (r: (Option<string>, Option<string>, Option<string>))
    ensures r.1.Some? <==> r.2.Some?
    ensures r.2.Some? <==> Succeeded(reply) && reply.body.success
    ensures r.0.None? <==> r.2.Some?
  {
    if Succeeded(reply) && reply.body.success then (None, Some(reply.body.userId), Some("/verifyOTP"))
    else if reply.Response? then (Some(OrDefault(reply.body.message)), None, None)
    else (Some(RegistrationFailed), None, None)
  }

  class RegisterForm {
    var error: Option<string>
    var isLoading: bool
    var navigatedTo: Option<string>
    const storage: BrowserStorage.LocalStorage

    constructor(storage: BrowserStorage.LocalStorage)
      ensures this.storage == storage && error.None? && !isLoading && navigatedTo.None?
    {
      this.storage := storage;
      error := None;
      isLoading := false;
      navigatedTo := None;
    }

    /** `handleRegister`: the pattern check comes first, then the
        confirmation; the request is sent exactly when both pass. A
        successful registration stores the user id under `userId` and opens
        the verification page. */
    method HandleRegister(password: string, confirmPassword: string, reply: Reply<RegisterBody>) returns (sent: bool)
      modifies this, storage
      ensures sent <==> PasswordCriteria.PasswordPattern(password) && password == confirmPassword
      ensures !PasswordCriteria.PasswordPattern(password) ==> error == Some(WeakPassword)
      ensures PasswordCriteria.PasswordPattern(password) && password != confirmPassword ==> error == Some(Mismatch)
      ensures !sent ==> storage.items == old(storage.items) && navigatedTo == old(navigatedTo)
      ensures sent ==> (
        var (err, userId, target) := RegisterOutcome(reply);
        error == err && navigatedTo == (if target.Some? then target else old(navigatedTo))
        && storage.items == (if userId.Some? then old(storage.items)["userId" := BrowserStorage.Plain(userId.value)] else old(storage.items)))
      ensures !isLoading
    {
      isLoading := true;
      error := None;
      if !PasswordCriteria.PasswordPattern(password) {
        error := Some(WeakPassword);
        isLoading := false;
        return false;
      }
      if password != confirmPassword {
        error := Some(Mismatch);
        isLoading := false;
        return false;
      }
      if Succeeded(reply) {
        if reply.body.success {
          storage.SetItem("userId", BrowserStorage.Plain(reply.body.userId));
          navigatedTo := Some("/verifyOTP");
        } else {
          error := Some(OrDefault(reply.body.message));
        }
      } else if reply.Response? {
        error := Some(OrDefault(reply.body.message));
      } else {
        error := Some(RegistrationFailed);
      }
      isLoading := false;
      return true;
    }
  }
}
