/** The CTC routes: where the actors send LTF/MISSAP clients and index
    contacts, read from configuration once, and how an actor's reply
    description decides the HTTP status. */
module Routes {
  import opened Wrappers
  import opened JavaText
  import EnvConfig
  import OpenSrpUrl
  import VerificationService

  const DEFAULT_DESTINATION_URL: string := "http://127.0.0.1:8080"
  const DEFAULT_DESTINATION_USERNAME: string := "username"
  const DEFAULT_DESTINATION_PASSWORD: string := "password"

  /** The server base and credentials the actors receive. */
  datatype Target = Target(url: string, username: string, password: string)

  /** The server base: the event URL, else the server URL, else the default,
      with any final event path removed. */
  function BaseUrl(env: EnvConfig.Environment): Result<string, EnvConfig.ConfigError> {
    var eventOrBase :- EnvConfig.GetFirstOrDefault(env, Some(DEFAULT_DESTINATION_URL),
                                                   [OpenSrpUrl.EVENT_URL_KEY, OpenSrpUrl.SERVER_URL_KEY]);
    Ok(OpenSrpUrl.ExtractBaseUrl(eventOrBase.value))
  }

  /** What the routes' constructor reads from configuration. */
  function Configure(env: EnvConfig.Environment): Result<Target, EnvConfig.ConfigError> {
    var url :- BaseUrl(env);
    var username :- EnvConfig.GetFirstOrDefault(env, Some(DEFAULT_DESTINATION_USERNAME), [OpenSrpUrl.USERNAME_KEY]);
    var password :- EnvConfig.GetFirstOrDefault(env, Some(DEFAULT_DESTINATION_PASSWORD), [OpenSrpUrl.PASSWORD_KEY]);
    Ok(Target(url, username.value, password.value))
  }

  /** Without either URL key the routes use the default base unchanged. */
  lemma DefaultBaseUrl(env: EnvConfig.Environment)
    requires EnvConfig.Get(env, OpenSrpUrl.EVENT_URL_KEY) == Ok(None)
    requires EnvConfig.Get(env, OpenSrpUrl.SERVER_URL_KEY) == Ok(None)
    ensures BaseUrl(env) == Ok(DEFAULT_DESTINATION_URL)
  {
    var keys := [OpenSrpUrl.EVENT_URL_KEY, OpenSrpUrl.SERVER_URL_KEY];
    EnvConfig.NoKeyGivesDefault(env, Some(DEFAULT_DESTINATION_URL), keys);
    var d := DEFAULT_DESTINATION_URL;
    assert d[0] == 'h' && d[|d| - 1] == '0';
    OpenSrpUrl.NormalizeIdentity(d);
    assert |d| < |OpenSrpUrl.EVENT_PATH|;
  }

  /** The routes and the verification-results service agree on the server:
      the routes' base is the base of the event URL the service posts to. */
  lemma BaseUrlMatchesEventUrl(env: EnvConfig.Environment, eventUrl: string)
    requires VerificationService.ResolveEventUrl(env) == Ok(Some(eventUrl))
    ensures BaseUrl(env) == Ok(OpenSrpUrl.ExtractBaseUrl(eventUrl))
  {
    var keys := [OpenSrpUrl.EVENT_URL_KEY, OpenSrpUrl.SERVER_URL_KEY];
    var fromEvent := EnvConfig.Get(env, OpenSrpUrl.EVENT_URL_KEY);
    EnvConfig.GetOrDefaultIsFirstOfOne(env, OpenSrpUrl.EVENT_URL_KEY, None);
    EnvConfig.GetOrDefaultIsFirstOfOne(env, OpenSrpUrl.SERVER_URL_KEY, None);
    if fromEvent.Ok? && fromEvent.value.Some? {
      VerificationService.ResolvePrefersEventUrl(env, fromEvent.value.value);
      EnvConfig.FirstKeyWins(env, Some(DEFAULT_DESTINATION_URL), keys, 0, eventUrl);
    } else {
      var serverUrl := EnvConfig.Get(env, OpenSrpUrl.SERVER_URL_KEY).value.value;
      VerificationService.ResolveFromServerUrl(env, serverUrl);
      EnvConfig.FirstKeyWins(env, Some(DEFAULT_DESTINATION_URL), keys, 1, serverUrl);
      OpenSrpUrl.ExtractOfEventUrl(serverUrl);
    }
  }

  // ------------------------------------------------------------------ status

  datatype Status = StatusOk | StatusBadRequest

  /** A reply whose description mentions "error", in any case, is a bad
      request; any other reply is OK. */
  function StatusFor(description: string): Status {
    if Contains(ToLower(description), "error") then StatusBadRequest else StatusOk
  }

  /** The status does not depend on the case of the description. */
  lemma StatusIgnoresCase(description: string)
    ensures StatusFor(ToUpper(description)) == StatusFor(description)
  {
    ToLowerOfUpper(description);
  }

  /** "error" spelled in any case, anywhere in the description, makes the
      reply a bad request. */
  lemma ErrorAnywhere(before: string, word: string, after: string)
    requires ToLower(word) == "error"
    ensures StatusFor(before + word + after) == StatusBadRequest
  {
    OpenSrpUrl.ToLowerConcat(before + word, after);
    OpenSrpUrl.ToLowerConcat(before, word);
    var lower := ToLower(before) + "error" + ToLower(after);
    assert lower[|before|..|before| + 5] == "error";
    ContainsAt(lower, "error", |before|);
  }
}
