/** The frontend's API address (frontend/src/config.ts): the configured base
    URL or a local default, without trailing slashes, followed by `/api`. */
module Config {
  import opened Base

  /** The backend address used when `VITE_API_BASE_URL` is not set. */
  const DefaultBaseUrl := "http://127.0.0.1:8000"

  /** `VITE_API_BASE_URL || DefaultBaseUrl`: a missing or empty setting gives
      the default. */
  function BaseUrl(env: Option<string>): (r: string)
    ensures env.Some? && env.value != "" ==> r == env.value
    ensures env.None? || env.value == "" ==> r == DefaultBaseUrl
  {
    if env.Some? && env.value != "" then env.value else DefaultBaseUrl
  }

  /** `replace(/\/+$/, "")`: the run of `/` at the end removed. The result is
      a prefix of `s` that does not end in `/`, and everything cut off is
      `/`. */
  function CleanBaseUrl(s: string): (r: string)
    ensures |r| <= |s| && r == s[..|r|]
    ensures r == [] || r[|r| - 1] != '/'
    ensures forall i :: |r| <= i < |s| ==> s[i] == '/'
  {
    if s != [] && s[|s| - 1] == '/' then CleanBaseUrl(s[..|s| - 1]) else s
  }

  /** Cleaning a clean address changes nothing, so cleaning twice is
      cleaning once. */
  lemma CleanIdempotent(s: string)
    ensures CleanBaseUrl(CleanBaseUrl(s)) == CleanBaseUrl(s)
  {
  }

  /** An address without a trailing `/` is left as it is. */
  lemma CleanKeepsUnslashed(s: string)
    requires s == [] || s[|s| - 1] != '/'
    ensures CleanBaseUrl(s) == s
  {
  }

  /** Extra trailing slashes make no difference. */
  lemma {:induction false} CleanIgnoresSlashes(s: string, n: nat)
    ensures CleanBaseUrl(s + seq(n, _ => '/')) == CleanBaseUrl(s)
  {
    if n > 0 {
      var slashes := seq(n, _ => '/');
      assert (s + slashes)[..|s + slashes| - 1] == s + seq(n - 1, _ => '/');
      CleanIgnoresSlashes(s, n - 1);
    } else {
      assert s + seq(n, _ => '/') == s;
    }
  }

  /** `API_URL`: the cleaned base followed by `/api`. */
  function ApiUrl(env: Option<string>): (r: string)
    ensures |r| >= 4 && r[|r| - 4..] == "/api"
    ensures r[..|r| - 4] == CleanBaseUrl(BaseUrl(env))
    ensures |r| == 4 || r[|r| - 5] != '/'
  {
    CleanBaseUrl(BaseUrl(env)) + "/api"
  }

  /** Without a setting the frontend talks to the local backend. */
  lemma DefaultApiUrl()
    ensures ApiUrl(None) == "http://127.0.0.1:8000/api"
  {
    assert DefaultBaseUrl[|DefaultBaseUrl| - 1] == '0';
  }
}
