/**
 * The password change form: its validation rules, its empty defaults, and
 * the submit handler whose timer clears the busy flag and resets the form
 * (src/components/molecules/SecuritySettings.tsx).
 */
module SecuritySettings {

  datatype PasswordField = CurrentPassword | NewPassword | ConfirmPassword

  /** The three rules of the schema, each with the message it shows. */
  datatype PasswordRule = Required | MinLength | MustMatch

  function Message(rule: PasswordRule): string {
    match rule
    case Required => "Current password is required"
    case MinLength => "Password must be at least 8 characters"
    case MustMatch => "Passwords do not match"
  }

  /** One validation failure, attached to the field it is shown under. */
  datatype Issue = Issue(field: PasswordField, rule: PasswordRule)

  datatype PasswordFormValues = PasswordFormValues(
    currentPassword: string,
    newPassword: string,
    confirmPassword: string)

  /**
   * `passwordFormSchema`: the length rule of each field, then the equality of
   * the two new passwords, whose message is attached to `confirmPassword`.
   * The equality rule is checked on strings that fail a length rule as well.
   */
  function PasswordIssues(v: PasswordFormValues): (r: seq<Issue>)
    ensures Issue(CurrentPassword, Required) in r <==> |v.currentPassword| < 1
    ensures Issue(NewPassword, MinLength) in r <==> |v.newPassword| < 8
    ensures Issue(ConfirmPassword, MinLength) in r <==> |v.confirmPassword| < 8
    ensures Issue(ConfirmPassword, MustMatch) in r <==> v.newPassword != v.confirmPassword
    ensures forall i :: 0 <= i < |r| ==> r[i].rule == MustMatch ==> r[i].field == ConfirmPassword
  {
    (if |v.currentPassword| < 1 then [Issue(CurrentPassword, Required)] else [])
    + (if |v.newPassword| < 8 then [Issue(NewPassword, MinLength)] else [])
    + (if |v.confirmPassword| < 8 then [Issue(ConfirmPassword, MinLength)] else [])
    + (if v.newPassword != v.confirmPassword then [Issue(ConfirmPassword, MustMatch)] else [])
  }

  /** The form passes exactly when the current password is given and the new one, long enough, is typed twice alike. */
  lemma PasswordFormValid(v: PasswordFormValues)
    ensures PasswordIssues(v) == [] <==> (|v.currentPassword| >= 1 && |v.newPassword| >= 8 && v.newPassword == v.confirmPassword)
  {
    var r := PasswordIssues(v);
    if r != [] {
      assert r[0] in r;
    }
  }

  const DefaultPasswordValues := PasswordFormValues("", "", "")

  /** The component's state: the form's values and the busy flag. */
  class PasswordForm {
    var values: PasswordFormValues
    var isLoading: bool

    constructor ()
      ensures values == DefaultPasswordValues && !isLoading
    {
      values := DefaultPasswordValues;
      isLoading := false;
    }

    /** `onSubmit`: marks the form busy and schedules the timer; nothing is sent anywhere. */
    method OnSubmit(data: PasswordFormValues)
      requires PasswordIssues(data) == []
      modifies this
      ensures isLoading && values == data
    {
      values := data;
      isLoading := true;
    }

    /** The timer scheduled by `onSubmit`: clears the busy flag and resets the form to its defaults. */
    method TimerFired()
      modifies this
      ensures !isLoading && values == DefaultPasswordValues
    {
      isLoading := false;
      values := DefaultPasswordValues;
    }
  }
}
