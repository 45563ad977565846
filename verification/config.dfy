/**
 * The configuration step at the top of `run`: both credentials must be set, the
 * environment name defaults to "DEV", and only the exact name "PROD" selects the
 * production gateway. Reading `.env` and the process environment is not
 * modelled; the three values arrive as parameters ("" for an unset variable).
 */
module Config {
  import opened Wrappers
  import opened Errors

  const ProductionUrl: string := "https://www.campay.net/api"
  const DemoUrl: string := "https://demo.campay.net/api"

  datatype Settings = Settings(username: string, password: string, environment: string, baseUrl: string)

  /** The base URL for an environment name: a case-sensitive, exact match on "PROD". */
  function BaseUrl(environment: string): (url: string)
    ensures url == ProductionUrl || url == DemoUrl
    ensures url == ProductionUrl <==> environment == "PROD"
  {
    if environment == "PROD" then ProductionUrl else DemoUrl
  }

  /**
   * Checks the credentials and resolves the environment. Missing credentials are
   * reported before anything else happens.
   */
  function Configure(username: string, password: string, environment: string): (r: Result<Settings, Error>)
    ensures r.Failure? <==> username == "" || password == ""
    ensures r.Failure? ==> r.error == MissingCredentials
    ensures r.Success? ==> r.value.username == username && r.value.password == password
    ensures r.Success? && environment != "" ==> r.value.environment == environment
    ensures r.Success? && environment == "" ==> r.value.environment == "DEV"
    ensures r.Success? ==> (r.value.baseUrl == ProductionUrl <==> environment == "PROD")
    ensures r.Success? ==> r.value.baseUrl == BaseUrl(r.value.environment)
  {
    if username == "" || password == "" then
      Failure(MissingCredentials)
    else
      var env := if environment == "" then "DEV" else environment;
      Success(Settings(username, password, env, BaseUrl(env)))
  }

  /** Any spelling other than exactly "PROD", including the default, talks to the demo gateway. */
  lemma DemoUnlessExactlyProd(username: string, password: string, environment: string)
    requires username != "" && password != ""
    requires environment != "PROD"
    ensures Configure(username, password, environment).Success?
    ensures Configure(username, password, environment).value.baseUrl == DemoUrl
  {
    assert ProductionUrl != DemoUrl by { assert ProductionUrl[8] != DemoUrl[8]; }
  }
}
