/** The OpenSRP destination URL in its two spellings: the event endpoint the
    verification-results service posts to, and the server base the routes
    hand to the actors. Both are derived from configured text by trimming
    and dropping trailing slashes, and the event path is matched ignoring
    case. */
module OpenSrpUrl {
  import opened JavaText

  /** The configuration keys naming the destination and its credentials. */
  const EVENT_URL_KEY: string := "OPENSRP_SERVER_EVENT_URL"
  const SERVER_URL_KEY: string := "OPENSRP_SERVER_URL"
  const USERNAME_KEY: string := "OPENSRP_SERVER_USERNAME"
  const PASSWORD_KEY: string := "OPENSRP_SERVER_PASSWORD"

  /** The path of OpenSRP's event-submission endpoint. */
  const EVENT_PATH: string := "/opensrp/rest/event/add"

  /** Drops every trailing '/' (the `while (endsWith("/"))` loops). */
  function StripTrailingSlashes(s: string): (r: string)
    ensures |r| <= |s| && r == s[..|r|]
    ensures forall k :: |r| <= k < |s| ==> s[k] == '/'
    ensures r == [] || r[|r| - 1] != '/'
  {
    if s != [] && s[|s| - 1] == '/' then StripTrailingSlashes(s[..|s| - 1]) else s
  }

  /** Configured text with surrounding whitespace and trailing slashes removed. */
  function Normalize(url: string): string {
    StripTrailingSlashes(Trim(url))
  }

  /** The URL ends with the event path, compared ignoring case. */
  predicate AddressesEvents(url: string) {
    EndsWith(ToLower(url), EVENT_PATH)
  }

  /** The event URL derived from a server URL: the normalised URL, with the
      event path appended unless it is already there. */
  function EventUrlOf(serverUrl: string): (r: string)
    ensures AddressesEvents(r)
  {
    var n := Normalize(serverUrl);
    if AddressesEvents(n) then n
    else
      EventPathIsLower(n);
      n + EVENT_PATH
  }

  /** The server base derived from an event or base URL: the normalised URL,
      without a final event path if it has one. */
  function ExtractBaseUrl(url: string): (r: string)
    ensures var n := Normalize(url); |r| <= |n| && r == n[..|r|]
    ensures var n := Normalize(url); |r| == if AddressesEvents(n) then |n| - |EVENT_PATH| else |n|
  {
    var n := Normalize(url);
    if AddressesEvents(n) then n[..|n| - |EVENT_PATH|] else n
  }

  // ------------------------------------------------------------------ lemmas

  lemma {:induction false} ToLowerConcat(a: string, b: string)
    ensures ToLower(a + b) == ToLower(a) + ToLower(b)
  {
    ToLowerAt(a + b);
    ToLowerAt(a);
    ToLowerAt(b);
  }

  /** Text without upper-case letters is its own lower case. */
  lemma {:induction false} ToLowerIdentity(s: string)
    requires forall c :: c in s ==> !('A' <= c <= 'Z')
    ensures ToLower(s) == s
  {
    if s != [] {
      assert s[0] in s;
      assert forall c :: c in s[1..] ==> c in s;
      ToLowerIdentity(s[1..]);
    }
  }

  lemma LowerEventPath()
    ensures ToLower(EVENT_PATH) == EVENT_PATH
  {
    ToLowerIdentity(EVENT_PATH);
  }

  /** Appending the event path makes any URL address events. */
  lemma EventPathIsLower(n: string)
    ensures AddressesEvents(n + EVENT_PATH)
  {
    ToLowerConcat(n, EVENT_PATH);
    LowerEventPath();
    assert (ToLower(n) + EVENT_PATH)[|n|..] == EVENT_PATH;
  }

  /** The base URL is a prefix of the trimmed input, so never longer. */
  lemma ExtractBaseUrlIsPrefix(url: string)
    ensures var r := ExtractBaseUrl(url);
      |r| <= |Trim(url)| && r == Trim(url)[..|r|]
  {
  }

  /** A trimmed-looking URL starts with a character `trim` keeps, or is empty;
      normalising preserves that. */
  lemma NormalizeStart(url: string)
    ensures var n := Normalize(url); n == [] || !IsTrimmable(n[0])
  {
    TrimShape(url);
  }

  /** Text that starts and ends with characters `trim` keeps, and does not
      end in '/', is already normal. */
  lemma NormalizeIdentity(s: string)
    requires s == [] || (!IsTrimmable(s[0]) && !IsTrimmable(s[|s| - 1]) && s[|s| - 1] != '/')
    ensures Normalize(s) == s
  {
    TrimIdentity(s);
  }

  /** Removing the event path from a URL built by appending it gives back the
      URL, for any URL without leading whitespace. */
  lemma ExtractAfterAppend(u: string)
    requires u == [] || !IsTrimmable(u[0])
    ensures ExtractBaseUrl(u + EVENT_PATH) == u
  {
    var s := u + EVENT_PATH;
    assert s[|s| - 1] == 'd';
    assert s[0] == if u == [] then '/' else u[0];
    NormalizeIdentity(s);
    EventPathIsLower(u);
    assert s[..|u|] == u;
  }

  /** The routes derive the same server base from the service's event URL as
      from the server URL it was built from. */
  lemma ExtractOfEventUrl(serverUrl: string)
    ensures ExtractBaseUrl(EventUrlOf(serverUrl)) == ExtractBaseUrl(serverUrl)
  {
    var n := Normalize(serverUrl);
    NormalizeStart(serverUrl);
    if AddressesEvents(n) {
      var lower := ToLower(n);
      ToLowerAt(n);
      assert lower[|lower| - 1] == EVENT_PATH[|EVENT_PATH| - 1];
      assert n[|n| - 1] == 'd' || n[|n| - 1] == 'D';
      NormalizeIdentity(n);
    } else {
      ExtractAfterAppend(n);
    }
  }
}
