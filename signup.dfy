/** The signup page (src/pages/signup.tsx): the submit handler's validation chain, the
    server-error message mapping, and the state changes of the `create` mutation's callbacks. */
module Signup {
  import opened Base
  import opened Strings
  import opened EmailPattern
  import UserRouter

  const AllFieldsRequired := "All fields are required."
  const PasswordTooShort := "Password must be at least 8 characters long."
  const InvalidEmail := "Please enter a valid email address."
  const DuplicateAccount := "An account with this email already exists."
  const LinkExpired := "The signup link has expired. Please try again."
  const CreateFailed := "An error occurred while creating your account. Please try again."

  /** The first check of `handleSubmit` that fails, in its fixed order (every field filled, then
      the password length, then the email pattern), or None when the mutation is to be issued. */
  function FirstFailedCheck(name: string, email: string, password: string): (r: Option<string>)
    ensures r.None? <==> name != "" && email != "" && password != "" && Utf16Length(password) >= 8 && EmailTest(email)
    ensures r == Some(AllFieldsRequired) <==> name == "" || email == "" || password == ""
    ensures r == Some(PasswordTooShort) <==> name != "" && email != "" && password != "" && Utf16Length(password) < 8
    ensures r == Some(InvalidEmail) <==>
              name != "" && email != "" && password != "" && Utf16Length(password) >= 8 && !EmailTest(email)
  {
    if name == "" || email == "" || password == "" then Some(AllFieldsRequired)
    else if Utf16Length(password) < 8 then Some(PasswordTooShort)
    else if !EmailTest(email) then Some(InvalidEmail)
    else None
  }

  /** Whatever the page sends, the server's length checks accept: a non-empty name and a password
      of at least 8 code units. */
  lemma SubmittedInputPassesServerLengths(name: string, email: string, password: string)
    requires FirstFailedCheck(name, email, password).None?
    ensures Utf16Length(name) >= 1 && Utf16Length(password) >= 8
    ensures MatchesEmailPattern(email)
  {
  }

  /** `onError`: the message shown for a server error, by the first phrase it contains. */
  function ServerErrorMessage(message: string): (shown: string)
    ensures shown == DuplicateAccount <==> Contains(message, "already exists")
    ensures shown == LinkExpired <==> !Contains(message, "already exists") && Contains(message, "expired")
    ensures shown == CreateFailed <==> !Contains(message, "already exists") && !Contains(message, "expired")
  {
    if Contains(message, "already exists") then DuplicateAccount
    else if Contains(message, "expired") then LinkExpired
    else CreateFailed
  }

  /** The server's CONFLICT message is shown as the duplicate-account message. */
  lemma ConflictShownAsDuplicate()
    ensures ServerErrorMessage(UserRouter.ConflictMessage) == DuplicateAccount
  {
    var m := UserRouter.ConflictMessage;
    assert m[27..41] == "already exists";
    ContainsAt(m, "already exists", 27);
  }

  /** The page's state, and the `create` mutations it has issued. */
  class SignupPage {
    var error: string
    var isLoading: bool
    var showModal: bool
    var mutations: seq<UserRouter.CreateInput>

    constructor ()
      ensures error == "" && !isLoading && !showModal && mutations == []
    {
      error, isLoading, showModal, mutations := "", false, false, [];
    }

    /** `handleSubmit`: clear the error and start loading, then stop at the first failing check
        with its message, or issue the mutation and stay loading. */
    method HandleSubmit(name: string, email: string, password: string)
      modifies this
      ensures showModal == old(showModal)
      ensures match FirstFailedCheck(name, email, password)
              case None =>
                error == "" && isLoading && mutations == old(mutations) + [UserRouter.CreateInput(name, email, password)]
              case Some(m) =>
                error == m && !isLoading && mutations == old(mutations)
    {
      error := "";
      isLoading := true;
      if name == "" || email == "" || password == "" {
        error := AllFieldsRequired;
        isLoading := false;
        return;
      }
      if Utf16Length(password) < 8 {
        error := PasswordTooShort;
        isLoading := false;
        return;
      }
      if !EmailTest(email) {
        error := InvalidEmail;
        isLoading := false;
        return;
      }
      mutations := mutations + [UserRouter.CreateInput(name, email, password)];
    }

    /** `onSuccess`: stop loading and show the confirmation modal. */
    method OnSuccess()
      modifies this
      ensures !isLoading && showModal
      ensures error == old(error) && mutations == old(mutations)
    {
      isLoading := false;
      showModal := true;
    }

    /** `onError`: stop loading and show the mapped message. */
    method OnError(message: string)
      modifies this
      ensures !isLoading && error == ServerErrorMessage(message)
      ensures showModal == old(showModal) && mutations == old(mutations)
    {
      isLoading := false;
      error := ServerErrorMessage(message);
    }
  }
}
