/** The password-reset page (src/pages/auth/pages/ResetPassword.js): the
    confirmation is shown once both inputs are filled in and equal, and
    stays shown. Nothing is sent to a server. */
module ResetPassword {

  class ResetPasswordPage {
    var newPw: string
    var confirmPw: string
    var success: bool

    constructor ()
      ensures newPw == "" && confirmPw == "" && !success
    {
      newPw := "";
      confirmPw := "";
      success := false;
    }

    method SetNewPassword(v: string)
      modifies this`newPw
      ensures newPw == v
    {
      newPw := v;
    }

    method SetConfirmPassword(v: string)
      modifies this`confirmPw
      ensures confirmPw == v
    {
      confirmPw := v;
    }

    /** `handleReset`: an empty input or a mismatch leaves `success` as it
        was; two equal non-empty inputs set it. It is never cleared. */
    method Reset()
      modifies this`success
      ensures newPw == "" || confirmPw == "" ==> success == old(success)
      ensures newPw != confirmPw ==> success == old(success)
      ensures newPw != "" && confirmPw != "" && newPw == confirmPw ==> success
      ensures old(success) ==> success
    {
      if newPw == "" || confirmPw == "" {
        return;
      }
      if newPw != confirmPw {
        return;
      }
      success := true;
    }
  }
}
