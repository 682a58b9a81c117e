/** The HTTP Basic credential both requests carry: the username, one ':'
    and the token, as UTF-8, in base 64, after the word "Basic". */
module Auth {
  import opened Wrappers
  import Utf8
  import Base64

  const Scheme := "Basic "

  /** The credential string `auth_str`: the username, then ':', then the token. */
  function Credentials(username: string, token: string): (r: string)
    ensures |r| == |username| + 1 + |token|
    ensures r[..|username|] == username && r[|username|] == ':' && r[|username| + 1..] == token
  {
    username + [':'] + token
  }

  /** The bytes of `auth_str`: those of the username, the byte of ':' (58),
      then those of the token. */
  lemma CredentialBytes(username: string, token: string)
    ensures Utf8.Encode(Credentials(username, token)) == Utf8.Encode(username) + [58] + Utf8.Encode(token)
  {
    Utf8.EncodeAppend(username + [':'], token);
    Utf8.EncodeAppend(username, [':']);
    assert Utf8.Encode([':']) == Utf8.EncodeChar(':') + Utf8.Encode([]);
  }

  /** The value of the `Authorization` header. */
  function BasicAuth(username: string, token: string): (r: string)
    ensures Scheme <= r && |r| > |Scheme|
    ensures forall i :: |Scheme| <= i < |r| ==> Base64.IsEncodedChar(r[i])
  {
    var payload := Base64.Encode(Utf8.Encode(Credentials(username, token)));
    assert |Utf8.Encode(Credentials(username, token))| >= 1;
    var r := Scheme + payload;
    assert r[|Scheme|..] == payload;
    r
  }

  /** Splits at the first ':', as a receiver of a Basic credential does
      (RFC 7617 section 2: the user-id cannot contain a colon). */
  function SplitAtColon(s: string): (r: Option<(string, string)>)
    ensures r.Some? ==> s == r.value.0 + [':'] + r.value.1 && ':' !in r.value.0
    ensures r.None? <==> ':' !in s
  {
    if s == [] then None
    else if s[0] == ':' then Some(([], s[1..]))
    else match SplitAtColon(s[1..])
      case None => None
      case Some((u, t)) => Some(([s[0]] + u, t))
  }

  /** Reads a username and token back out of an `Authorization` value. */
  function ParseBasicAuth(header: string): (r: Option<(string, string)>)
  {
    if !(Scheme <= header) then None
    else match Base64.Decode(header[|Scheme|..])
      case None => None
      case Some(bytes) =>
        match Utf8.Decode(bytes)
        case None => None
        case Some(text) => SplitAtColon(text)
  }

  lemma {:induction false} SplitCredentials(username: string, token: string)
    requires ':' !in username
    ensures SplitAtColon(Credentials(username, token)) == Some((username, token))
  {
    var s := Credentials(username, token);
    if username != [] {
      assert s[1..] == Credentials(username[1..], token);
      SplitCredentials(username[1..], token);
      assert [username[0]] + username[1..] == username;
    }
  }

  /** When the username has no ':' (RFC 7617 forbids one), the header
      carries exactly the username and the token. */
  lemma ParseBasicAuthRoundTrip(username: string, token: string)
    requires ':' !in username
    ensures ParseBasicAuth(BasicAuth(username, token)) == Some((username, token))
  {
    var text := Credentials(username, token);
    var header := BasicAuth(username, token);
    assert header[|Scheme|..] == Base64.Encode(Utf8.Encode(text));
    Base64.DecodeEncode(Utf8.Encode(text));
    Utf8.DecodeEncode(text);
    SplitCredentials(username, token);
  }

  /** Two requests carry the same header only for the same credential string;
      with colon-free usernames, only for the same username and token. */
  lemma BasicAuthInjective(u1: string, t1: string, u2: string, t2: string)
    requires BasicAuth(u1, t1) == BasicAuth(u2, t2)
    ensures Credentials(u1, t1) == Credentials(u2, t2)
    ensures ':' !in u1 && ':' !in u2 ==> u1 == u2 && t1 == t2
  {
    var h := BasicAuth(u1, t1);
    assert h[|Scheme|..] == Base64.Encode(Utf8.Encode(Credentials(u1, t1)));
    assert h[|Scheme|..] == Base64.Encode(Utf8.Encode(Credentials(u2, t2)));
    Base64.EncodeInjective(Utf8.Encode(Credentials(u1, t1)), Utf8.Encode(Credentials(u2, t2)));
    Utf8.EncodeInjective(Credentials(u1, t1), Credentials(u2, t2));
    if ':' !in u1 && ':' !in u2 {
      SplitCredentials(u1, t1);
      SplitCredentials(u2, t2);
    }
  }

  /** With an empty username and token the credential is the single ':'. */
  lemma EmptyCredentials()
    ensures BasicAuth("", "") == "Basic Og=="
  {
    assert Credentials("", "") == ":";
    assert Utf8.Encode(":") == [58];
    assert Base64.Encode([58]) == "Og==";
  }
}
