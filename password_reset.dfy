/** The password reset page: a four-step wizard (request a code, enter the code, choose a
    new password, done), with the step back from the code to the request. */
module PasswordReset {

  datatype Step = Request | Code | Reset | Success

  /** The code box's `maxLength`. */
  const CodeLength := 6

  /** `resetPasswordSchema`: both fields at least 6 characters and equal. */
  predicate ResetPasswordAccepts(password: string, confirmPassword: string) {
    |password| >= 6 && |confirmPassword| >= 6 && password == confirmPassword
  }

  /** The confirmation's own length rule never decides: equal strings have equal lengths. */
  lemma ResetPasswordRule(password: string, confirmPassword: string)
    ensures ResetPasswordAccepts(password, confirmPassword) <==> |password| >= 6 && password == confirmPassword
  {
  }

  /** The guard of `onVerifyCode`: the code is rejected when empty or shorter than 6. */
  predicate CodeRejected(code: string) {
    code == "" || |code| < CodeLength
  }

  /** What the box keeps of a proposed value: at most its first 6 characters. `input` is
      the box's whole proposed value, as when typing at the end or pasting into an empty box;
      a keystroke inside a full box is refused by `maxLength` and does not cut the tail. */
  function Truncate(input: string): (r: string)
    ensures |r| <= CodeLength && r <= input
    ensures |input| <= CodeLength ==> r == input
    ensures |input| > CodeLength ==> r == input[..CodeLength]
  {
    if |input| <= CodeLength then input else input[..CodeLength]
  }

  /** With the box's limit, the guard lets through exactly the codes of 6 characters. */
  lemma CodeAcceptedExactly(input: string)
    ensures !CodeRejected(Truncate(input)) <==> |input| >= CodeLength
    ensures !CodeRejected(Truncate(input)) ==> |Truncate(input)| == CodeLength
  {
  }

  /** The page's state. `requestEmail` is the request form's email field, which keeps its
      value while the code step is shown; `errorShown` records the error notice. */
  class PasswordResetPage {
    var step: Step
    var email: string
    var code: string
    var isSubmitting: bool
    var requestEmail: string
    var errorShown: bool

    /** Between two handlers: nothing is being submitted, the code box holds at most 6
        characters, and past the code step the code has exactly 6. */
    predicate Valid()
      reads this
    {
      && !isSubmitting
      && |code| <= CodeLength
      && (step == Reset || step == Success ==> |code| == CodeLength)
    }

    constructor ()
      ensures step == Request && email == "" && code == "" && requestEmail == ""
      ensures !errorShown && Valid()
    {
      step := Request;
      email := "";
      code := "";
      isSubmitting := false;
      requestEmail := "";
      errorShown := false;
    }

    /** Typing into the request form. */
    method SetRequestEmail(input: string)
      requires step == Request
      modifies this`requestEmail
      ensures requestEmail == input
    {
      requestEmail := input;
    }

    /** The request form's submit, from the request step or as "send again" from the code
        step: a valid email is recorded and the code step shown; an invalid one is stopped
        by the form. */
    method SubmitRequest(isEmail: string -> bool) returns (sent: bool)
      requires Valid() && (step == Request || step == Code)
      modifies this`step, this`email, this`isSubmitting
      ensures Valid()
      ensures sent == isEmail(requestEmail)
      ensures sent ==> step == Code && email == requestEmail
      ensures !sent ==> step == old(step) && email == old(email)
    {
      sent := isEmail(requestEmail);
      if sent {
        isSubmitting := true;
        email := requestEmail;
        step := Code;
        isSubmitting := false;
      }
    }

    /** Typing into the code box: `input` is the whole value the box is offered (typed at
        the end or pasted into an empty box), and the box keeps its `Truncate`d form. */
    method SetCode(input: string)
      requires Valid() && step == Code
      modifies this`code
      ensures code == Truncate(input) && Valid()
    {
      code := Truncate(input);
    }

    /** `onVerifyCode`: a short code raises the error notice and changes nothing else (not
        even `isSubmitting`); a full code moves on to the new password. */
    method OnVerifyCode() returns (accepted: bool)
      requires Valid() && step == Code
      modifies this`step, this`isSubmitting, this`errorShown
      ensures Valid()
      ensures accepted == !CodeRejected(code)
      ensures accepted ==> step == Reset && errorShown == old(errorShown)
      ensures !accepted ==> step == Code && errorShown
    {
      if code == "" || |code| < CodeLength {
        errorShown := true;
        return false;
      }
      isSubmitting := true;
      step := Reset;
      isSubmitting := false;
      accepted := true;
    }

    /** "Change email": back to the request step. */
    method ChangeEmail()
      requires Valid() && step == Code
      modifies this`step
      ensures step == Request && Valid()
    {
      step := Request;
    }

    /** The new password form's submit: the schema decides, `onResetPassword` finishes. */
    method SubmitNewPassword(password: string, confirmPassword: string) returns (accepted: bool)
      requires Valid() && step == Reset
      modifies this`step, this`isSubmitting
      ensures Valid()
      ensures accepted == ResetPasswordAccepts(password, confirmPassword)
      ensures step == if accepted then Success else Reset
    {
      accepted := ResetPasswordAccepts(password, confirmPassword);
      if accepted {
        isSubmitting := true;
        step := Success;
        isSubmitting := false;
      }
    }
  }
}
