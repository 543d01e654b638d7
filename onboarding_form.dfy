/** The onboarding form page (src/pages/form.tsx): a record of named inputs updated one field at
    a time, posted with the session's user id, and a move to the builder when the post succeeds. */
module OnboardingForm {
  import opened Base

  const UserIdKey := "userId"

  /** `JSON.stringify({ ...formData, userId: session?.user?.id })`: the record's fields with `userId`
      set last, so it overrides a field of that name; an undefined `userId` is dropped from the JSON. */
  function SubmitBody(form: map<string, string>, userId: Option<string>): (body: map<string, string>)
    ensures UserIdKey in body <==> userId.Some?
    ensures userId.Some? ==> body[UserIdKey] == userId.value
    ensures forall k :: k != UserIdKey ==> (k in body <==> k in form)
    ensures forall k :: k != UserIdKey && k in form ==> body[k] == form[k]
  {
    match userId
    case Some(id) => form[UserIdKey := id]
    case None => form - {UserIdKey}
  }

  /** The page's state: the form record, the bodies posted, and the routes pushed. */
  class FormPage {
    var formData: map<string, string>
    var posted: seq<map<string, string>>
    var pushed: seq<string>

    constructor ()
      ensures formData == map[] && posted == [] && pushed == []
    {
      formData, posted, pushed := map[], [], [];
    }

    /** `handleInputChange`: the field named by the input takes its value; nothing else changes. */
    method HandleInputChange(name: string, value: string)
      modifies this
      ensures formData == old(formData)[name := value]
      ensures posted == old(posted) && pushed == old(pushed)
    {
      formData := formData[name := value];
    }

    /** `handleSubmit`: post the body; go to the builder iff the response is ok. */
    method HandleSubmit(session: Option<Session>, responseOk: bool)
      modifies this
      ensures formData == old(formData)
      ensures posted == old(posted) + [SubmitBody(old(formData), SessionUserId(session))]
      ensures pushed == old(pushed) + (if responseOk then [BuilderPath] else [])
    {
      posted := posted + [SubmitBody(formData, SessionUserId(session))];
      if responseOk {
        pushed := pushed + [BuilderPath];
      }
    }
  }
}
