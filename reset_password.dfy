/** The reset-password page (auth/ResetPassword.tsx): `handleUpdateClick`
    needs a token from the address and a matching confirmation before it
    sends the new password, and only the server's exact success message
    counts as success. */
module ResetPassword {

  import opened Wrappers
  import opened ResumeData

  const InvalidToken := "Invalid or missing token. Please request a new password reset."
  const Mismatch := "Passwords do not match"
  const ServerSuccess := "Password reset successfully"
  const ResetDone := "Password has been reset successfully. You will be redirected to the login page."
  const ResetFailed := "Failed to reset password. Please try again later."

  /** `!token`: a missing parameter or an empty one. */
  predicate MissingToken(token: Option<string>) {
    token.None? || token.value == []
  }

  /** The messages after a request whose reply carried `message`, as
      (errorMessage, successMessage, redirect scheduled). */
  function ResetOutcome(reply: Reply<Option<string>>, success: string): (r: (Option<string>, string, bool))
    ensures r.2 <==> Succeeded(reply) && reply.body == Some(ServerSuccess)
    ensures r.2 ==> r.0 == Some("") && r.1 == ResetDone
    ensures Succeeded(reply) && !r.2 ==> r.0 == reply.body && r.1 == success
    ensures !Succeeded(reply) ==> r.0 == Some(ResetFailed) && r.1 == success
  {
    if Succeeded(reply) then
      if reply.body == Some(ServerSuccess) then (Some(""), ResetDone, true)
      else (reply.body, success, false)
    else (Some(ResetFailed), success, false)
  }

  class ResetPasswordForm {
    /** `errorMessage`; `None` when the server's reply had no message. */
    var errorMessage: Option<string>
    var successMessage: string
    var loading: bool
    var redirectScheduled: bool

    constructor()
      ensures errorMessage == Some("") && successMessage == "" && !loading && !redirectScheduled
    {
      errorMessage := Some("");
      successMessage := "";
      loading := false;
      redirectScheduled := false;
    }

    /** `handleUpdateClick`; `reply` answers the request, its body the
        server's `message`. The token is checked before the confirmation,
        and the request is sent only when both pass. */
    method HandleUpdateClick(token: Option<string>, password: string, confirmPassword: string, reply: Reply<Option<string>>)
      returns (sent: bool)
      modifies this
      ensures sent <==> !MissingToken(token) && password == confirmPassword
      ensures MissingToken(token) ==> errorMessage == Some(InvalidToken)
      ensures !MissingToken(token) && password != confirmPassword ==> errorMessage == Some(Mismatch)
      ensures !sent ==> successMessage == old(successMessage) && loading == old(loading) && redirectScheduled == old(redirectScheduled)
      ensures sent ==> (!loading &&
        var (e, s, r) := ResetOutcome(reply, old(successMessage));
        errorMessage == e && successMessage == s && redirectScheduled == (r || old(redirectScheduled)))
    {
      if MissingToken(token) {
        errorMessage := Some(InvalidToken);
        return false;
      }
      if password != confirmPassword {
        errorMessage := Some(Mismatch);
        return false;
      }
      loading := true;
      if Succeeded(reply) {
        if reply.body == Some(ServerSuccess) {
          errorMessage := Some("");
          successMessage := ResetDone;
          redirectScheduled := true;
        } else {
          errorMessage := reply.body;
        }
      } else {
        errorMessage := Some(ResetFailed);
      }
      loading := false;
      return true;
    }
  }
}
