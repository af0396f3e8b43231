/** The bearer-token middleware of `src/middleware/auth.js`, as a decision on the request's
    path and `Authorization` header. */
module Auth {
  import opened Basics
  import opened Text

  /** `next()` is called, or the middleware answers 401 itself. */
  datatype Verdict = Pass | Unauthorized(status: int, wwwAuthenticate: string, body: string)

  /** The `WWW-Authenticate` challenge sent with every 401. */
  const Challenge: string := "Bearer realm=\"Painel\""

  /** `BEARER_TOKEN` when the environment does not set one. */
  const DefaultToken: string := "painel123"

  /** The panel, the recordings and the file list need the token; nothing else does. */
  predicate IsProtected(path: string) {
    path == "/" || StartsWith(path, "/recordings") || path == "/files"
  }

  /** The middleware: `authorization` is `req.headers.authorization` (`None` when absent). */
  function Authorize(path: string, authorization: Option<string>, token: string): (v: Verdict)
    ensures v.Pass? <==> !IsProtected(path) || authorization == Some("Bearer " + token)
    ensures v.Unauthorized? ==> v == Unauthorized(401, Challenge, "Não autorizado")
    ensures IsProtected(path) && (authorization == None || authorization == Some("")) ==> v.Unauthorized?
  {
    if IsProtected(path) then
      match authorization
      case None => Unauthorized(401, Challenge, "Não autorizado")
      case Some(auth) =>
        if auth == "" || auth != "Bearer " + token then Unauthorized(401, Challenge, "Não autorizado")
        else Pass
    else
      Pass
  }

  /** The prefix test is on raw text: `/recordingsX` is protected, `/files/x` and `/` followed by
      anything else are not, and a scheme written in another case is refused. */
  lemma ProtectionExamples(token: string)
    ensures IsProtected("/recordingsX") && IsProtected("/recordings/cam-1.mp4")
    ensures !IsProtected("/files/x") && !IsProtected("/api/photos")
    ensures Authorize("/files", Some("bearer " + token), token).Unauthorized?
    ensures Authorize("/files/x", None, token) == Pass
  {
    assert ("/recordingsX")[..11] == "/recordings";
    assert ("/recordings/cam-1.mp4")[..11] == "/recordings";
    assert ("bearer " + token)[0] == 'b';
    assert ("/files/x")[1] != ("/recordings")[1];
    assert ("/api/photos")[1] != ("/recordings")[1];
  }

  /** With the default token, the panel opens for `Bearer painel123` and not for the bare token. */
  lemma DefaultTokenExamples()
    ensures Authorize("/", Some("Bearer painel123"), DefaultToken) == Pass
    ensures Authorize("/", Some("painel123"), DefaultToken).Unauthorized?
  {
    assert "Bearer " + DefaultToken == "Bearer painel123";
    assert ("painel123")[0] != ("Bearer " + DefaultToken)[0];
  }
}
