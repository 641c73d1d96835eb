/** The metadata record a fetch fills in (the `results_data` dictionary).
    The dictionary only ever holds the keys below, so it is modelled as a
    record with one field per key: the three keys every fetch sets are
    plain fields, every other key is an optional field that is `Some`
    exactly when the dictionary holds that key. */
module Metadata {
  import opened Common

  type Headers = map<string, string>

  /** One hop of a redirect chain as recorded: its headers and status code. */
  datatype Redirect = Redirect(headers: Headers, responseCode: int)

  /** The cookies entry: the basic fetch stores the cookie jar as a
      dictionary, the website fetch the list the session returns. */
  datatype CookieJar = CookieDict(jar: map<string, string>) | CookieList(items: seq<string>)

  /** One field per key of the dictionary, named after it
      (requested_url, actual_url, remote_job_id, connection_success,
      fetch_success, fetch_object_success, server_info, response_code,
      cookies, redirects). */
  datatype Record = Record(
    requestedUrl: string,
    actualUrl: string,
    remoteJobId: string,
    connectionSuccess: Option<bool>,
    fetchSuccess: Option<bool>,
    fetchObjectSuccess: Option<bool>,
    serverInfo: Option<Headers>,
    responseCode: Option<int>,
    cookies: Option<CookieJar>,
    redirects: Option<seq<Redirect>>)

  /** The three keys every fetch starts with. */
  function Initial(requestedUrl: string, actualUrl: string, remoteJobId: string): Record
  {
    Record(requestedUrl, actualUrl, remoteJobId, None, None, None, None, None, None, None)
  }
}
