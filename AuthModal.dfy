/**
 * The sign-in / register dialog: mode and auth-type switches, the five-field
 * form, the two-step phone flow and the submit label. Closing the dialog
 * (the `onClose` callback) and toasts are reported through out-parameters.
 */
module AuthModal {

  datatype Mode = SignIn | Register

  datatype AuthType = Email | Phone

  datatype Field = EmailField | PhoneField | PasswordField | NameField | OtpField

  datatype FormData = FormData(email: string, phone: string, password: string, name: string, otp: string)

  /** A toast: its title and description. */
  datatype Toast = Toast(title: string, description: string)

  function EmptyForm(): FormData {
    FormData("", "", "", "", "")
  }

  function Get(form: FormData, field: Field): string {
    match field
    case EmailField => form.email
    case PhoneField => form.phone
    case PasswordField => form.password
    case NameField => form.name
    case OtpField => form.otp
  }

  /** The form with one field replaced, as the change handler's object spread builds it. */
  function WithField(form: FormData, field: Field, value: string): (updated: FormData)
    ensures Get(updated, field) == value
    ensures forall other :: other != field ==> Get(updated, other) == Get(form, other)
  {
    match field
    case EmailField => form.(email := value)
    case PhoneField => form.(phone := value)
    case PasswordField => form.(password := value)
    case NameField => form.(name := value)
    case OtpField => form.(otp := value)
  }

  /** The other mode. */
  function Flip(mode: Mode): (other: Mode)
    ensures other != mode
  {
    if mode == SignIn then Register else SignIn
  }

  /** The submit button's text. */
  function SubmitLabel(authType: AuthType, mode: Mode, otpSent: bool): (text: string)
    ensures authType == Email ==> (text == "Sign In" <==> mode == SignIn)
    ensures authType == Phone ==> (text == "Verify OTP" <==> otpSent)
    ensures text in {"Sign In", "Create Account", "Verify OTP", "Send OTP"}
  {
    if authType == Email then (if mode == SignIn then "Sign In" else "Create Account")
    else (if otpSent then "Verify OTP" else "Send OTP")
  }

  /** Updating a field and then reading it back gives the value; the other fields keep theirs. */
  lemma WithFieldTwice(form: FormData, field: Field, first: string, second: string)
    ensures WithField(WithField(form, field, first), field, second) == WithField(form, field, second)
  {
  }

  /** The label tells the four submit actions apart. */
  lemma SubmitLabelDeterminesAction(a: AuthType, m: Mode, s: bool, a': AuthType, m': Mode, s': bool)
    requires SubmitLabel(a, m, s) == SubmitLabel(a', m', s')
    ensures a == a'
    ensures a == Email ==> m == m'
    ensures a == Phone ==> s == s'
  {
  }

  class Dialog {
    var mode: Mode
    var authType: AuthType
    var showPassword: bool
    var formData: FormData
    var otpSent: bool

    /** Opens in the given mode (the default is sign-in), on email, with an empty form. */
    constructor(initialMode: Mode := SignIn)
      ensures mode == initialMode && authType == Email
      ensures formData == EmptyForm() && !otpSent && !showPassword
    {
      mode := initialMode;
      authType := Email;
      showPassword := false;
      formData := EmptyForm();
      otpSent := false;
    }

    /** `handleInputChange`: only the named field changes. */
    method HandleInputChange(field: Field, value: string)
      modifies this
      ensures formData == WithField(old(formData), field, value)
      ensures mode == old(mode) && authType == old(authType)
      ensures showPassword == old(showPassword) && otpSent == old(otpSent)
    {
      formData := WithField(formData, field, value);
    }

    /** `handleEmailAuth`: always closes; only the toast depends on the mode. */
    method HandleEmailAuth() returns (toast: Toast, closed: bool)
      ensures closed
      ensures toast.title == "Account Created" <==> mode == Register
      ensures toast.title == "Signed In" <==> mode == SignIn
    {
      if mode == Register {
        toast := Toast("Account Created", "Welcome to Hoomora! Your account has been created successfully.");
      } else {
        toast := Toast("Signed In", "Welcome back to Hoomora!");
      }
      closed := true;
    }

    /** `handleGoogleSignIn`: only a placeholder toast; nothing changes and the dialog stays open. */
    method HandleGoogleSignIn() returns (toast: Toast, closed: bool)
      ensures !closed && toast.title == "Google Sign In"
    {
      toast := Toast("Google Sign In", "Google authentication would be integrated here");
      closed := false;
    }

    /**
     * `handlePhoneAuth`: the first submit sends the code and keeps the dialog
     * open; a submit after that verifies and closes it.
     */
    method HandlePhoneAuth() returns (toast: Toast, closed: bool)
      modifies this
      ensures closed == old(otpSent)
      ensures otpSent
      ensures !old(otpSent) ==> toast == Toast("OTP Sent", "Verification code sent to " + old(formData).phone)
      ensures old(otpSent) ==> toast.title == "Phone Verified"
      ensures mode == old(mode) && authType == old(authType) && formData == old(formData)
      ensures showPassword == old(showPassword)
    {
      if !otpSent {
        otpSent := true;
        toast := Toast("OTP Sent", "Verification code sent to " + formData.phone);
        closed := false;
      } else {
        toast := Toast("Phone Verified", "Welcome to Hoomora!");
        closed := true;
      }
    }

    /** The submit button runs the handler of the current auth type. */
    method Submit() returns (toast: Toast, closed: bool)
      modifies this
      ensures old(authType) == Email ==> closed && otpSent == old(otpSent)
      ensures old(authType) == Email ==>
        toast.title == (if old(mode) == Register then "Account Created" else "Signed In")
      ensures old(authType) == Phone ==> closed == old(otpSent) && otpSent
      ensures old(authType) == Phone ==>
        toast.title == (if old(otpSent) then "Phone Verified" else "OTP Sent")
      ensures mode == old(mode) && authType == old(authType) && formData == old(formData)
      ensures showPassword == old(showPassword)
    {
      if authType == Email {
        toast, closed := HandleEmailAuth();
      } else {
        toast, closed := HandlePhoneAuth();
      }
    }

    /** `resetForm`: empties the form and clears the OTP and password flags, nothing else. */
    method ResetForm()
      modifies this
      ensures formData == EmptyForm() && !otpSent && !showPassword
      ensures mode == old(mode) && authType == old(authType)
    {
      formData := EmptyForm();
      otpSent := false;
      showPassword := false;
    }

    /** `switchMode`: the other mode, on a reset form. */
    method SwitchMode()
      modifies this
      ensures mode == Flip(old(mode))
      ensures formData == EmptyForm() && !otpSent && !showPassword
      ensures authType == old(authType)
    {
      mode := if mode == SignIn then Register else SignIn;
      ResetForm();
    }

    /** The Email / Phone toggle. */
    method SelectAuthType(t: AuthType)
      modifies this
      ensures authType == t
      ensures mode == old(mode) && formData == old(formData)
      ensures otpSent == old(otpSent) && showPassword == old(showPassword)
    {
      authType := t;
    }

    /** The eye button beside the password. */
    method TogglePasswordVisibility()
      modifies this
      ensures showPassword == !old(showPassword)
      ensures mode == old(mode) && authType == old(authType)
      ensures formData == old(formData) && otpSent == old(otpSent)
    {
      showPassword := !showPassword;
    }

    /** The submit button's text for the current state. */
    function Label(): (text: string)
      reads this
      ensures authType == Phone ==> (text == "Verify OTP" <==> otpSent)
      ensures authType == Email ==> (text == "Sign In" <==> mode == SignIn)
    {
      SubmitLabel(authType, mode, otpSent)
    }
  }

  /** Switching mode twice restores the mode and leaves a reset form. */
  method SwitchModeTwice(d: Dialog)
    modifies d
    ensures d.mode == old(d.mode) && d.authType == old(d.authType)
    ensures d.formData == EmptyForm() && !d.otpSent
  {
    d.SwitchMode();
    d.SwitchMode();
  }

  /** Toggling password visibility twice restores it. */
  method TogglePasswordTwice(d: Dialog)
    modifies d
    ensures d.showPassword == old(d.showPassword)
    ensures d.formData == old(d.formData) && d.mode == old(d.mode)
  {
    d.TogglePasswordVisibility();
    d.TogglePasswordVisibility();
  }

  /**
   * The phone flow: the first submit keeps the dialog open and turns the
   * label into "Verify OTP"; the second submit closes it.
   */
  method PhoneFlow(d: Dialog) returns (closedFirst: bool, labelBetween: string, closedSecond: bool)
    requires d.authType == Phone && !d.otpSent
    modifies d
    ensures !closedFirst && labelBetween == "Verify OTP" && closedSecond
    ensures d.otpSent && d.Label() == "Verify OTP"
  {
    var first, second;
    first, closedFirst := d.Submit();
    labelBetween := d.Label();
    second, closedSecond := d.Submit();
  }

  /** A dialog opened without a mode starts on sign-in. */
  method OpenWithDefaultMode() returns (d: Dialog)
    ensures d.mode == SignIn && d.authType == Email && d.Label() == "Sign In"
  {
    d := new Dialog();
  }
}
