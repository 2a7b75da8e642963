/**
 * The axios client's request interceptor: before every request it reads the
 * auth store's current token and, when the token is truthy, sets the
 * `Authorization` header of the request config to `Token <token>`.
 */
module Api {
  import opened Std
  import opened Json
  import opened Auth

  const AuthorizationHeader := "Authorization"

  /** The header value for a token: the template `Token ${token}`. */
  function Credential(token: string): (r: string)
    ensures |r| == |token| + 6
    ensures r[..6] == "Token " && r[6..] == token
  {
    "Token " + token
  }

  /** The headers a request leaves with, given the headers it had and the store's token. */
  function WithCredentials(headers: map<string, string>, token: Option<string>): (r: map<string, string>)
    ensures Present(token) ==> AuthorizationHeader in r && r[AuthorizationHeader] == Credential(token.value)
    ensures !Present(token) ==> r == headers
    ensures r.Keys == headers.Keys + (if Present(token) then {AuthorizationHeader} else {})
    ensures forall k :: k in headers && k != AuthorizationHeader ==> r[k] == headers[k]
  {
    if Present(token) then headers[AuthorizationHeader := Credential(token.value)] else headers
  }

  /** The request config axios passes through the interceptor; it is changed in place. */
  class RequestConfig {
    var headers: map<string, string>
    /** Every other config field (url, method, data, ...), which the interceptor never touches. */
    var fields: map<string, Value>

    constructor (headers: map<string, string>, fields: map<string, Value>)
      ensures this.headers == headers && this.fields == fields
    {
      this.headers := headers;
      this.fields := fields;
    }
  }

  /**
   * The interceptor callback: reads the token at request time, writes the
   * header into `config.headers` when it is truthy, and returns the same
   * config object. The auth store is only read.
   */
  method Intercept(auth: AuthStore, config: RequestConfig) returns (r: RequestConfig)
    modifies config
    ensures r == config
    ensures config.headers == WithCredentials(old(config.headers), auth.token)
    ensures config.fields == old(config.fields)
    ensures auth.State() == old(auth.State())
  {
    var token := auth.token;
    if Present(token) {
      config.headers := config.headers[AuthorizationHeader := Credential(token.value)];
    }
    r := config;
  }

  /** Applying the interceptor twice with the same token gives the same headers as applying it once. */
  lemma WithCredentialsIdempotent(headers: map<string, string>, token: Option<string>)
    ensures WithCredentials(WithCredentials(headers, token), token) == WithCredentials(headers, token)
  {
  }

  /** A request carries this store's credential exactly when the session is authenticated. */
  lemma CredentialIffAuthenticated(headers: map<string, string>, s: Session)
    requires AuthorizationHeader !in headers
    ensures AuthorizationHeader in WithCredentials(headers, s.token) <==> s.IsAuthenticated()
  {
  }

  /** After `logout`, or a failed login, the interceptor adds nothing to a request. */
  lemma NoCredentialWhenSignedOut(headers: map<string, string>)
    ensures WithCredentials(headers, SignedOut.token) == headers
    ensures WithCredentials(headers, AfterLogin(Failure).token) == headers
  {
  }

  /**
   * The token is read when the request is made: a request issued after
   * `logout` leaves with its headers as they were, whatever the session
   * was before.
   */
  method RequestAfterLogout(auth: AuthStore, config: RequestConfig) returns (r: RequestConfig)
    modifies auth, auth.storage, config
    ensures r == config
    ensures config.headers == old(config.headers) && config.fields == old(config.fields)
  {
    auth.Logout();
    r := Intercept(auth, config);
  }
}
