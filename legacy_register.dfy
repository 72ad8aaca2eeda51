/** The older registration form (RegisterForm.tsx): the e-mail pattern
    `^[^\s@]+@[^\s@]+\.[^\s@]+$`, the same name filter as the newer form,
    and a submit handler that reports an invalid e-mail address but
    registers anyway, then stores `{ userId, timestamp }` under `userId`. */
module LegacyRegister {

  import opened Wrappers
  import opened Text
  import opened ResumeData
  import PasswordCriteria
  import BrowserStorage
  import AuthRegister

  /** `[^\s@]+` over `s[a..b]`. */
  predicate Run(s: string, a: nat, b: nat) {
    a < b <= |s| && forall k :: a <= k < b ==> !IsJsSpace(s[k]) && s[k] != '@'
  }

  /** The pattern, construct by construct: a run, `@`, a run, a `.`, a run,
      covering the whole string. Backtracking may pick any `.` of the part
      after the `@`. */
  predicate EmailPattern(s: string) {
    exists i, j :: 0 <= i < j < |s| && Run(s, 0, i) && s[i] == '@' && Run(s, i + 1, j) && s[j] == '.' && Run(s, j + 1, |s|)
  }

  /** What the pattern asks for in plain terms: exactly one `@`, not first;
      no white space; and a `.` after the `@` with at least one character
      on each side of it. */
  predicate EmailShape(s: string) {
    (forall k :: 0 <= k < |s| ==> !IsJsSpace(s[k]))
    && exists at :: (0 < at < |s| && s[at] == '@' && (forall k :: 0 <= k < |s| && k != at ==> s[k] != '@')
      && exists j :: at + 1 < j < |s| - 1 && s[j] == '.')
  }

  lemma EmailPatternShape(s: string)
    ensures EmailPattern(s) <==> EmailShape(s)
  {
    if EmailPattern(s) {
      var i, j :| 0 <= i < j < |s| && Run(s, 0, i) && s[i] == '@' && Run(s, i + 1, j) && s[j] == '.' && Run(s, j + 1, |s|);
      assert forall k :: 0 <= k < |s| && k != i ==> s[k] != '@' by {
        forall k | 0 <= k < |s| && k != i ensures s[k] != '@' {
          if k < i {} else if k < j {} else if k == j {} else {}
        }
      }
      assert forall k :: 0 <= k < |s| ==> !IsJsSpace(s[k]) by {
        forall k | 0 <= k < |s| ensures !IsJsSpace(s[k]) {
          if k < i {} else if k == i {} else if k < j {} else if k == j {} else {}
        }
      }
      assert i + 1 < j < |s| - 1;
    }
    if EmailShape(s) {
      var at :| 0 < at < |s| && s[at] == '@' && (forall k :: 0 <= k < |s| && k != at ==> s[k] != '@')
        && exists j :: at + 1 < j < |s| - 1 && s[j] == '.';
      var j :| at + 1 < j < |s| - 1 && s[j] == '.';
      assert Run(s, 0, at) && Run(s, at + 1, j) && Run(s, j + 1, |s|);
    }
  }

  const InvalidEmail := "Please enter a valid email address"
  const InvalidPassword := "Invalid password. Please follow the password criteria."
  const Mismatch := "Passwords do not match!"
  const NoData := "Cannot read properties of undefined (reading 'userId')"

  /** The message of a rejected axios request: `error.message`. */
  function AxiosMessage(reply: Reply<Option<Option<string>>>): (r: string)
    requires !Succeeded(reply)
    ensures r != []
  {
    if reply.NoResponse? then "Network Error"
    else if reply.status < 0 then "Request failed with status code -" + NatToString(-reply.status)
    else "Request failed with status code " + NatToString(reply.status)
  }

  /** Whether `handleSubmit` sends the registration request. The address
      check only sets a message; the password checks of `handleRegister`
      are the only ones that return early, so the address plays no part. */
  predicate Sends(email: string, password: string, confirmPassword: string) {
    PasswordCriteria.PasswordPattern(password) && password == confirmPassword
  }

  class LegacyRegisterForm {
    var firstName: string
    var lastName: string
    var error: Option<string>
    var navigatedTo: Option<string>
    const storage: BrowserStorage.LocalStorage

    constructor(storage: BrowserStorage.LocalStorage)
      ensures this.storage == storage && error.None? && navigatedTo.None?
      ensures firstName == "" && lastName == ""
    {
      this.storage := storage;
      firstName := "";
      lastName := "";
      error := None;
      navigatedTo := None;
    }

    /** `handleFirstNameChange`: only letters and spaces are kept. */
    method HandleFirstNameChange(value: string)
      modifies this
      ensures firstName == AuthRegister.NameFilter(value)
      ensures lastName == old(lastName) && error == old(error) && navigatedTo == old(navigatedTo)
    {
      firstName := AuthRegister.NameFilter(value);
    }

    /** `handleLastNameChange`: the same filter. */
    method HandleLastNameChange(value: string)
      modifies this
      ensures lastName == AuthRegister.NameFilter(value)
      ensures firstName == old(firstName) && error == old(error) && navigatedTo == old(navigatedTo)
    {
      lastName := AuthRegister.NameFilter(value);
    }

    /** `validateEmail`. */
    method ValidateEmail(email: string)
      modifies this
      ensures error == if EmailPattern(email) then None else Some(InvalidEmail)
      ensures navigatedTo == old(navigatedTo)
    {
      if EmailPattern(email) {
        error := None;
      } else {
        error := Some(InvalidEmail);
      }
    }

    /** `handleSubmit`: validate the address, then register whatever the
        verdict. `now` is the clock in milliseconds; the reply's body is
        `data.data` with its `userId`, `None` when `data.data` is
        missing. Returns whether the request was sent. */
    method HandleSubmit(email: string, password: string, confirmPassword: string, now: int,
                        reply: Reply<Option<Option<string>>>) returns (sent: bool)
      modifies this, storage
      ensures sent <==> Sends(email, password, confirmPassword)
      ensures !PasswordCriteria.PasswordPattern(password) ==> error == Some(InvalidPassword)
      ensures PasswordCriteria.PasswordPattern(password) && password != confirmPassword ==> error == Some(Mismatch)
      ensures sent && Succeeded(reply) && reply.body.Some? ==>
        error.None? && navigatedTo == Some("/verifyotp")
        && storage.items == old(storage.items)["userId" := BrowserStorage.Stamped(reply.body.value, now)]
      ensures sent && Succeeded(reply) && reply.body.None? ==>
        error == Some(NoData) && navigatedTo == old(navigatedTo) && storage.items == old(storage.items)
      ensures sent && !Succeeded(reply) ==>
        error == Some(AxiosMessage(reply)) && navigatedTo == old(navigatedTo) && storage.items == old(storage.items)
      ensures !sent ==> navigatedTo == old(navigatedTo) && storage.items == old(storage.items)
    {
      ValidateEmail(email);
      if !PasswordCriteria.PasswordPattern(password) {
        error := Some(InvalidPassword);
        return false;
      }
      if password != confirmPassword {
        error := Some(Mismatch);
        return false;
      }
      if Succeeded(reply) {
        if reply.body.Some? {
          storage.SetItem("userId", BrowserStorage.Stamped(reply.body.value, now));
          error := None;
          navigatedTo := Some("/verifyotp");
        } else {
          error := Some(NoData);
        }
      } else {
        error := Some(AxiosMessage(reply));
      }
      return true;
    }
  }

  /** An invalid address does not stop the registration: whatever the
      address, the request goes out exactly when the password meets the
      criteria and matches its confirmation, as it does for a valid one;
      `no-at-sign` with `Abcdefg1` is such a case. */
  lemma InvalidEmailStillRegisters(email: string, password: string, confirmPassword: string)
    ensures Sends(email, password, confirmPassword) <==> PasswordCriteria.PasswordPattern(password) && password == confirmPassword
    ensures Sends(email, password, confirmPassword) == Sends("a@b.c", password, confirmPassword)
    ensures EmailPattern("a@b.c") && !EmailPattern("no-at-sign") && Sends("no-at-sign", "Abcdefg1", "Abcdefg1")
  {
    ExampleAddresses();
    ExamplePassword("Abcdefg1");
  }

  lemma ExampleAddresses()
    ensures EmailPattern("a@b.c") && !EmailPattern("no-at-sign")
  {
    var good := "a@b.c";
    assert Run(good, 0, 1) && good[1] == '@' && Run(good, 2, 3) && good[3] == '.' && Run(good, 4, 5);
    var s := "no-at-sign";
    assert forall i :: 0 <= i < |s| ==> s[i] != '@';
  }

  lemma ExamplePassword(pw: string)
    requires pw == "Abcdefg1"
    ensures PasswordCriteria.PasswordPattern(pw)
  {
    assert forall k :: 0 <= k < |pw| ==> pw[k] as int < 0x1_0000;
    assert PasswordCriteria.IsLower(pw[1]) && PasswordCriteria.DotsOver(pw, 0, 1);
    assert PasswordCriteria.IsUpper(pw[0]) && PasswordCriteria.DotsOver(pw, 0, 0);
    assert PasswordCriteria.IsDigit(pw[7]) && PasswordCriteria.DotsOver(pw, 0, 7);
  }
}
