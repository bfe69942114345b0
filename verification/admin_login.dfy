/** The admin login form's client-side check
    (`src/components/admin/AdminLogin.tsx`). The credential check behind it
    is not part of this model. */
module AdminLogin {
  import opened Text

  datatype FormErrors = FormErrors(username: string, password: string)

  const UsernameRequired: string := "Username is required"
  const PasswordRequired: string := "Password is required"
  const PasswordTooShort: string := "Password must be at least 3 characters"

  /** `validateForm`: the two fields are checked independently; an empty
      message means the field is fine. */
  function ValidateForm(username: string, password: string): (r: (bool, FormErrors))
    ensures r.1.username == "" <==> !AllWhitespace(username)
    ensures r.1.username != "" ==> r.1.username == UsernameRequired
    ensures r.1.password == PasswordRequired <==> password == ""
    ensures r.1.password == PasswordTooShort <==> 0 < |password| < 3
    ensures r.1.password == "" <==> |password| >= 3
    ensures r.0 <==> r.1.username == "" && r.1.password == ""
  {
    var userError := if |Trim(username)| == 0 then UsernameRequired else "";
    var passwordError := if password == "" then PasswordRequired
                         else if |password| < 3 then PasswordTooShort
                         else "";
    (userError == "" && passwordError == "", FormErrors(userError, passwordError))
  }

  /** The form passes exactly when the trimmed username is non-empty and the
      password has at least three characters. */
  lemma ValidIff(username: string, password: string)
    ensures ValidateForm(username, password).0 <==> |Trim(username)| > 0 && |password| >= 3
  {
  }

  /** A blank username and an empty password are reported together. */
  lemma BothErrorsReported()
    ensures ValidateForm("   ", "") == (false, FormErrors(UsernameRequired, PasswordRequired))
  {
    assert AllWhitespace("   ") by {
      assert forall i :: 0 <= i < 3 ==> "   "[i] == ' ';
    }
  }
}
