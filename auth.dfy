/** `ensure_gmail_auth` and the hook object it reads. The agent run itself is
    an input: its outcome (`RunOutcome`) and the URL the hook object holds
    once the run is over. */
module Auth {
  import opened PyStrings
  import opened AuthUrl
  import opened Backends

  /** `WebExecutionHooks`: the framework calls `on_auth_url` whenever it
      needs the user to log in; the object keeps the latest URL. */
  class WebExecutionHooks {
    var lastAuthUrl: Option<string>

    constructor ()
      ensures lastAuthUrl == None
    {
      lastAuthUrl := None;
    }

    /** Printing the URL and passing it on to the superclass are side effects
        whose exceptions are swallowed; what remains is the field update, so
        the most recent call always wins. */
    method OnAuthUrl(url: string)
      modifies this
      ensures lastAuthUrl == Some(url)
    {
      lastAuthUrl := Some(url);
    }
  }

  /** How the auth-check run ended: with a final output (already passed
      through `str(... or "")`) and the text of `plan.model_dump_json()`, or
      None if that call raised; with a PlanError; or with any other exception.
      Each error carries its `str()`. */
  datatype RunOutcome =
    | Completed(output: string, dump: Option<string>)
    | PlanError(text: string)
    | OtherError(text: string)

  /** The dict `ensure_gmail_auth` returns. */
  datatype AuthStatus = AuthStatus(authenticated: bool, authUrl: Option<string>, raw: string)

  const AuthOkMarker: string := "AUTH_OK"

  /** The hook's URL as the error paths report it: main.py passes the field
      on as it is (an empty string included), agent_runner.py maps a falsy
      field to None. */
  function HookFallback(backend: Backend, hookUrl: Option<string>): (r: Option<string>)
    ensures r == hookUrl || r == None
    ensures Truthy(hookUrl) ==> r == hookUrl
    ensures backend == AgentRunner ==> (r.Some? <==> Truthy(hookUrl))
    ensures backend == MainApp ==> r == hookUrl
  {
    match backend
    case MainApp => hookUrl
    case AgentRunner => if Truthy(hookUrl) then hookUrl else None
  }

  /** The decision chain of `ensure_gmail_auth`, after the run. */
  function EnsureGmailAuth(backend: Backend, run: RunOutcome, hookUrl: Option<string>): (st: AuthStatus)
    ensures st.authenticated <==> run.Completed? && Contains(run.output, AuthOkMarker)
    ensures st.authenticated ==> st.authUrl == None
    ensures st.raw == (if run.Completed? then run.output else run.text)
    ensures st.authUrl.Some? && st.authUrl != hookUrl ==> InPattern(st.authUrl.value)
  {
    match run
    case Completed(out, dump) =>
      if Contains(out, AuthOkMarker) then AuthStatus(true, None, out)
      else
        var found := if out != "" then Search(out) else None;
        var fromDump :=
          if !Truthy(found) && dump.Some? && Search(dump.value).Some? then Search(dump.value) else found;
        var url := if !Truthy(fromDump) && Truthy(hookUrl) then hookUrl else fromDump;
        AuthStatus(false, url, out)
    case PlanError(text) =>
      var m := Search(text);
      if m.Some? then AuthStatus(false, m, text) else AuthStatus(false, HookFallback(backend, hookUrl), text)
    case OtherError(text) =>
      AuthStatus(false, HookFallback(backend, hookUrl), text)
  }

  /** The first candidate that is present. */
  function FirstPresent(candidates: seq<Option<string>>): Option<string> {
    if candidates == [] then None
    else if candidates[0].Some? then candidates[0]
    else FirstPresent(candidates[1..])
  }

  /** The search over `model_dump_json()`, or nothing if that call raised. */
  function DumpMatch(dump: Option<string>): Option<string> {
    if dump.Some? then Search(dump.value) else None
  }

  /** Without the marker, the URL comes from the first source that yields
      one: a match in the output, a match in the run dump, the hook's URL if
      it is truthy; otherwise there is none. */
  lemma CompletedFallbackChain(backend: Backend, out: string, dump: Option<string>, hookUrl: Option<string>)
    requires !Contains(out, AuthOkMarker)
    ensures EnsureGmailAuth(backend, Completed(out, dump), hookUrl) ==
      AuthStatus(false, FirstPresent([Search(out), DumpMatch(dump), if Truthy(hookUrl) then hookUrl else None]), out)
  {
    if out == "" {
      assert !InPattern(out[0..0]);
    }
    FirstOfThree(Search(out), DumpMatch(dump), if Truthy(hookUrl) then hookUrl else None);
  }

  lemma FirstOfThree(a: Option<string>, b: Option<string>, c: Option<string>)
    ensures FirstPresent([a, b, c]) == if a.Some? then a else if b.Some? then b else c
  {
    assert [a, b, c][1..] == [b, c];
    assert [b, c][1..] == [c];
    assert [c][1..] == [];
    assert FirstPresent([c]) == c;
    assert FirstPresent([b, c]) == if b.Some? then b else c;
  }

  /** On a PlanError the error text is searched; if it holds no URL the hook
      decides. On any other exception only the hook decides. */
  lemma ErrorPaths(backend: Backend, run: RunOutcome, hookUrl: Option<string>)
    requires !run.Completed?
    ensures EnsureGmailAuth(backend, run, hookUrl).authUrl ==
      FirstPresent([if run.PlanError? then Search(run.text) else None, HookFallback(backend, hookUrl)])
  {
    var c := [if run.PlanError? then Search(run.text) else None, HookFallback(backend, hookUrl)];
    assert c[1..] == [HookFallback(backend, hookUrl)];
    assert c[1..][1..] == [];
    assert FirstPresent(c[1..]) == HookFallback(backend, hookUrl);
    assert FirstPresent(c) == (if c[0].Some? then c[0] else HookFallback(backend, hookUrl));
  }

  /** The two copies disagree exactly when an error path falls back to a hook
      that holds the empty string: main.py reports "" where agent_runner.py
      reports None. */
  lemma CopiesDiffer(run: RunOutcome, hookUrl: Option<string>)
    ensures EnsureGmailAuth(MainApp, run, hookUrl) != EnsureGmailAuth(AgentRunner, run, hookUrl) <==>
      !run.Completed? && hookUrl == Some("") && (run.OtherError? || Search(run.text).None?)
  {
  }

  /** "AUTH_OK" on its own means authenticated, with no URL. */
  lemma AuthOkAlone(backend: Backend, dump: Option<string>, hookUrl: Option<string>)
    ensures EnsureGmailAuth(backend, Completed("AUTH_OK", dump), hookUrl) == AuthStatus(true, None, "AUTH_OK")
  {
    assert OccursAt("AUTH_OK", AuthOkMarker, 0);
  }

  /** The marker wins even when a login URL is present too. */
  lemma AuthOkBeatsUrl(backend: Backend, before: string, after: string, dump: Option<string>, hookUrl: Option<string>)
    ensures EnsureGmailAuth(backend, Completed(before + AuthOkMarker + after, dump), hookUrl).authenticated
    ensures EnsureGmailAuth(backend, Completed(before + AuthOkMarker + after, dump), hookUrl).authUrl == None
  {
    ContainsInside(before, AuthOkMarker, after);
  }

  /** A login link inside the final output is reported, not authenticated. */
  lemma LoginLinkReported(backend: Backend, dump: Option<string>, hookUrl: Option<string>)
    ensures EnsureGmailAuth(backend, Completed(LoginText, dump), hookUrl) == AuthStatus(false, Some(LoginLink), LoginText)
  {
    SearchFindsLoginLink();
    NoMarkerInLoginText();
  }

  lemma NoMarkerInLoginText()
    ensures !Contains(LoginText, AuthOkMarker)
  {
    assert 'A' !in LoginText;
    forall i | 0 <= i <= |LoginText| ensures !OccursAt(LoginText, AuthOkMarker, i) {
      if i + |AuthOkMarker| <= |LoginText| {
        assert LoginText[i] in LoginText;
        assert LoginText[i..i + |AuthOkMarker|][0] != AuthOkMarker[0];
      }
    }
  }
}
