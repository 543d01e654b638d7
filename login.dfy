/** The login page (src/pages/login.tsx): the outcome handling of a credentials sign-in, the
    user id extracted from the result URL, and the redirect of an already signed-in visitor. */
module Login {
  import opened Base
  import opened Strings

  const Marker := "userId="
  const InvalidCredentials := "Invalid email or password"
  const FetchUserFailed := "Error fetching user data"
  const Home := "/"

  /** What `signIn('credentials', { redirect: false })` resolves to. */
  datatype SignInResult = SignInResult(error: Option<string>, ok: bool, url: Option<string>)

  /** `result.url?.split('userId=')[1]`: the text after the first marker, up to the next marker or
      the end; undefined without a URL or without a marker. */
  function UserIdFromUrl(url: Option<string>): (r: Option<string>)
    ensures r.None? <==> url.None? || !Contains(url.value, Marker)
    ensures r.Some? ==> !Contains(r.value, Marker)
  {
    match url
    case None => None
    case Some(u) =>
      var parts := Split(u, Marker);
      if |parts| > 1 then
        SplitPiecesFree(u, Marker, 1);
        Some(parts[1])
      else None
  }

  /** Where the extracted id sits: right after the first marker, followed by the end of the URL or
      by the next marker. */
  lemma UserIdFromUrlLocated(u: string) returns (before: string, after: string)
    requires UserIdFromUrl(Some(u)).Some?
    ensures var id := UserIdFromUrl(Some(u)).value;
            && u == before + Marker + id + after
            && !Contains(before, Marker)
            && (after == [] || OccursAt(after, Marker, 0))
  {
    var i := IndexOf(u, Marker).value;
    var rest := u[i + |Marker|..];
    before := u[..i];
    PrefixBeforeFirst(u, Marker, i);
    var id := UserIdFromUrl(Some(u)).value;
    assert Split(u, Marker) == [before] + Split(rest, Marker);
    assert id == Split(rest, Marker)[0];
    match IndexOf(rest, Marker)
    case None =>
      after := [];
      assert id == rest;
    case Some(j) =>
      after := rest[j..];
      assert id == rest[..j];
      assert after[0..|Marker|] == rest[j..j + |Marker|];
    assert u == before + u[i..i + |Marker|] + rest;
    assert rest == id + after;
  }

  /** The page's state: the error shown, the routes pushed, and the ids passed to the user refetch. */
  class LoginPage {
    var error: string
    var pushed: seq<string>
    var refetched: seq<string>

    constructor ()
      ensures error == "" && pushed == [] && refetched == []
    {
      error, pushed, refetched := "", [], [];
    }

    /** `handleSubmit` after `signIn` resolved to `result` (None for `undefined`). The refetch
        either succeeds or throws, as `refetchThrows` says. */
    method HandleSubmit(result: Option<SignInResult>, refetchThrows: bool)
      modifies this
      ensures result.Some? && result.value.error.Some? && result.value.error.value != "" ==>
                error == InvalidCredentials && pushed == old(pushed) && refetched == old(refetched)
      ensures (result.None? || ((result.value.error.None? || result.value.error.value == "") && !result.value.ok)) ==>
                error == "" && pushed == old(pushed) && refetched == old(refetched)
      ensures result.Some? && (result.value.error.None? || result.value.error.value == "") && result.value.ok ==>
                var id := UserIdFromUrl(result.value.url);
                if id.None? || id.value == "" then
                  error == "" && pushed == old(pushed) && refetched == old(refetched)
                else
                  && refetched == old(refetched) + [id.value]
                  && (refetchThrows ==> error == FetchUserFailed && pushed == old(pushed))
                  && (!refetchThrows ==> error == "" && pushed == old(pushed) + [Home])
    {
      error := "";
      if result.None? {
        return;
      }
      var res := result.value;
      if res.error.Some? && res.error.value != "" {
        error := InvalidCredentials;
      } else if res.ok {
        var userId := UserIdFromUrl(res.url);
        if userId.Some? && userId.value != "" {
          refetched := refetched + [userId.value];
          if refetchThrows {
            error := FetchUserFailed;
          } else {
            pushed := pushed + [Home];
          }
        }
      }
    }

    /** The render: with a session it pushes '/' and renders nothing; otherwise it renders the form. */
    method Render(session: Option<Session>) returns (rendersForm: bool)
      modifies this
      ensures rendersForm <==> session.None?
      ensures pushed == old(pushed) + (if session.Some? then [Home] else [])
      ensures error == old(error) && refetched == old(refetched)
    {
      if session.Some? {
        pushed := pushed + [Home];
        return false;
      }
      rendersForm := true;
    }
  }
}
