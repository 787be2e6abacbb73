/** From a temporary bucket to the SSH endpoint the transfers use,
    oiseau.py lines 150-167: the last `ssh` credential's URI, split into a
    host and a port, with the remote folder `/buffer` appended to the host. */
module Credentials {
  import opened Wrappers
  import opened Text
  import opened Records
  import opened Errors

  const SshScheme: string := "ssh://"

  /** The characters `lstrip("ssh://")` actually strips: it takes its
      argument as a set of characters, not as a prefix. */
  const SchemeChars: set<char> := {'s', 'h', ':', '/'}

  /** Where the transfers go: `remote` is `host:/buffer`, `port` is kept as text. */
  datatype Endpoint = Endpoint(remote: string, port: string)

  /** Lines 150-153: the URI of the LAST credential whose protocol is `ssh`,
      since the loop keeps overwriting `ssh_uri`. */
  function SshUri(creds: seq<Credential>): (r: Option<string>)
    ensures r.None? <==> forall i :: 0 <= i < |creds| ==> creds[i].protocol != "ssh"
    ensures r.Some? ==> exists i :: && 0 <= i < |creds| && creds[i].protocol == "ssh" && creds[i].uri == r.value
                                    && forall j :: i < j < |creds| ==> creds[j].protocol != "ssh"
    decreases |creds|
  {
    if creds == [] then None
    else
      var last := creds[|creds| - 1];
      var front := creds[..|creds| - 1];
      if last.protocol == "ssh" then
        assert creds[|creds| - 1] == last;
        Some(last.uri)
      else
        var r := SshUri(front);
        assert forall i :: 0 <= i < |front| ==> front[i] == creds[i];
        if r.Some? then
          var i :| && 0 <= i < |front| && front[i].protocol == "ssh" && front[i].uri == r.value
                   && forall j :: i < j < |front| ==> front[j].protocol != "ssh";
          assert creds[i] == front[i];
          r
        else r
  }

  /** A later `ssh` credential always wins over an earlier one. */
  lemma {:induction false} SshUriAppend(c1: seq<Credential>, c2: seq<Credential>)
    ensures SshUri(c1 + c2) == if SshUri(c2).Some? then SshUri(c2) else SshUri(c1)
    decreases |c2|
  {
    if c2 == [] {
      assert c1 + c2 == c1;
    } else {
      var c := c1 + c2;
      var last := c2[|c2| - 1];
      assert c[|c| - 1] == last;
      assert c[..|c| - 1] == c1 + c2[..|c2| - 1];
      if last.protocol != "ssh" {
        assert SshUri(c) == SshUri(c1 + c2[..|c2| - 1]);
        assert SshUri(c2) == SshUri(c2[..|c2| - 1]);
        SshUriAppend(c1, c2[..|c2| - 1]);
      }
    }
  }

  /** Line 161 as written: `ssh_uri.lstrip("ssh://").split(":", 1)`; `None`
      is the `ValueError` of the unpacking. */
  function ParseSshUriAsWritten(uri: string): (r: Option<(string, string)>)
    ensures r.None? <==> forall i :: 0 <= i < |uri| && uri[i] == ':' ==> forall k :: 0 <= k <= i ==> uri[k] in SchemeChars
    ensures r.Some? ==> && ':' !in r.value.0
                        && |r.value.0| + 1 + |r.value.1| <= |uri|
                        && uri[|uri| - (|r.value.0| + 1 + |r.value.1|)..] == r.value.0 + [':'] + r.value.1
                        && (forall i :: 0 <= i < |uri| - (|r.value.0| + 1 + |r.value.1|) ==> uri[i] in SchemeChars)
                        && r.value.0 != [] && r.value.0[0] !in SchemeChars
  {
    var s := LStrip(uri, SchemeChars);
    var r := SplitOnce(s, ':');
    assert r.None? <==> ':' !in s;
    r
  }

  /** Stripping a run of scheme characters in front changes nothing. */
  lemma {:induction false} LStripSkipsRun(a: string, b: string)
    requires forall i :: 0 <= i < |a| ==> a[i] in SchemeChars
    ensures LStrip(a + b, SchemeChars) == LStrip(b, SchemeChars)
    decreases |a|
  {
    if a != [] {
      assert (a + b)[0] == a[0] && (a + b)[1..] == a[1..] + b;
      LStripSkipsRun(a[1..], b);
    } else {
      assert a + b == b;
    }
  }

  lemma SchemeIsRun()
    ensures forall i :: 0 <= i < |SshScheme| ==> SshScheme[i] in SchemeChars
  {
  }

  /** As written, a host that begins with scheme characters loses them:
      `ssh://` + RUN + HOST + `:PORT` comes back as `(HOST, PORT)`. */
  lemma {:induction false} ParseSshUriAsWrittenEatsHost(run: string, host: string, port: string)
    requires forall i :: 0 <= i < |run| ==> run[i] in SchemeChars
    requires ':' !in host && host != [] && host[0] !in SchemeChars
    ensures ParseSshUriAsWritten(SshScheme + run + host + ":" + port) == Some((host, port))
  {
    var t := host + [':'] + port;
    assert SshScheme + run + host + ":" + port == (SshScheme + run) + t;
    SchemeIsRun();
    assert forall i :: 0 <= i < |SshScheme + run| ==> (SshScheme + run)[i] in SchemeChars;
    LStripSkipsRun(SshScheme + run, t);
    assert t[0] == host[0];
    LStripStops(t, SchemeChars);
    SplitOnceAt(host, ':', port);
  }

  /** As written, a host that is empty or begins with a scheme character
      never comes back intact: stripping eats into it. */
  lemma ParseSshUriAsWrittenLosesHost(host: string, port: string)
    requires host == [] || host[0] in SchemeChars
    ensures ParseSshUriAsWritten(SshScheme + host + ":" + port) != Some((host, port))
  {
    var t := host + [':'] + port;
    assert SshScheme + host + ":" + port == SshScheme + t;
    SchemeIsRun();
    LStripSkipsRun(SshScheme, t);
    var stripped := LStrip(t, SchemeChars);
    assert t[0] in SchemeChars by {
      if host != [] {
        assert t[0] == host[0];
      }
    }
    LStripShortens(t, SchemeChars);
    var r := SplitOnce(stripped, ':');
    assert ParseSshUriAsWritten(SshScheme + host + ":" + port) == r;
    if r.Some? {
      assert |r.value.0| + 1 + |r.value.1| == |stripped| < |t|;
    }
  }

  /** As written, `ssh://HOST:PORT` comes back as `(HOST, PORT)` exactly
      when HOST does not begin with one of `s`, `h`, `:` or `/`. */
  lemma ParseSshUriAsWrittenRoundTrip(host: string, port: string)
    requires ':' !in host
    ensures ParseSshUriAsWritten(SshScheme + host + ":" + port) == Some((host, port))
            <==> host != [] && host[0] !in SchemeChars
  {
    if host != [] && host[0] !in SchemeChars {
      assert SshScheme + host + ":" + port == SshScheme + [] + host + ":" + port;
      ParseSshUriAsWrittenEatsHost([], host, port);
    } else {
      ParseSshUriAsWrittenLosesHost(host, port);
    }
  }

  /** The concrete case: `ssh://host:22` gives the host `ost`. */
  lemma ParseSshUriAsWrittenExample(uri: string)
    requires uri == "ssh://host:22"
    ensures ParseSshUriAsWritten(uri) == Some(("ost", "22"))
  {
    assert uri == SshScheme + "h" + "ost" + ":" + "22";
    ParseSshUriAsWrittenEatsHost("h", "ost", "22");
  }

  /** The evidently intended parse: remove the `ssh://` prefix when present,
      then cut at the first colon. */
  function ParseSshUri(uri: string): (r: Option<(string, string)>)
    ensures r.Some? ==> && ':' !in r.value.0
                        && (|| uri == SshScheme + r.value.0 + ":" + r.value.1
                            || (!(SshScheme <= uri) && uri == r.value.0 + ":" + r.value.1))
    ensures r.None? ==> ':' !in uri || (SshScheme <= uri && ':' !in uri[|SshScheme|..])
  {
    var rest := RemovePrefix(uri, SshScheme);
    var r := SplitOnce(rest, ':');
    if r.Some? then
      assert SshScheme + r.value.0 + ":" + r.value.1 == SshScheme + (r.value.0 + [':'] + r.value.1);
      r
    else r
  }

  /** Round trip: `ssh://HOST:PORT` always gives back `(HOST, PORT)`. */
  lemma ParseSshUriRoundTrip(host: string, port: string)
    requires ':' !in host
    ensures ParseSshUri(SshScheme + host + ":" + port) == Some((host, port))
  {
    var uri := SshScheme + host + ":" + port;
    assert uri == SshScheme + (host + [':'] + port);
    assert RemovePrefix(uri, SshScheme) == host + [':'] + port;
    SplitOnceAt(host, ':', port);
  }

  /** Line 166: the remote folder the files go to. */
  function Remote(host: string): (r: string)
    ensures |r| == |host| + 8 && r[..|host|] == host && r[|host|..] == ":/buffer"
  {
    host + ":/buffer"
  }

  /** Lines 150-166 as written: the endpoint of a bucket, or the reason
      there is none, with the URI split by `ParseSshUriAsWritten`. */
  function Connect(bucket: Bucket): (r: Verdict<Endpoint>)
    ensures !r.Propagate?
    ensures r == Fail(SshNotConfigured(bucket.uuidRef)) <==> SshUri(bucket.credentials).None?
    ensures r.Fail? && SshUri(bucket.credentials).Some? ==>
              && r.error == InvalidSshUri(SshUri(bucket.credentials).value)
              && ParseSshUriAsWritten(SshUri(bucket.credentials).value).None?
    ensures r.Ready? ==> exists host, port :: && ParseSshUriAsWritten(SshUri(bucket.credentials).value) == Some((host, port))
                                              && r.value == Endpoint(Remote(host), port)
  {
    match SshUri(bucket.credentials)
    case None => Fail(SshNotConfigured(bucket.uuidRef))
    case Some(uri) =>
      match ParseSshUriAsWritten(uri)
      case None => Fail(InvalidSshUri(uri))
      case Some((host, port)) => Ready(Endpoint(Remote(host), port))
  }

  /** As written, a bucket whose last `ssh` credential is `ssh://HOST:PORT`
      is reached at `HOST:/buffer` on port PORT when HOST does not begin
      with one of `s`, `h`, `:` or `/`. */
  lemma ConnectRoundTrip(bucket: Bucket, earlier: seq<Credential>, later: seq<Credential>, host: string, port: string)
    requires ':' !in host && host != [] && host[0] !in SchemeChars
    requires bucket.credentials == earlier + [Credential("ssh", SshScheme + host + ":" + port)] + later
    requires forall i :: 0 <= i < |later| ==> later[i].protocol != "ssh"
    ensures Connect(bucket) == Ready(Endpoint(Remote(host), port))
  {
    var ssh := Credential("ssh", SshScheme + host + ":" + port);
    SshUriAppend(earlier + [ssh], later);
    SshUriAppend(earlier, [ssh]);
    assert ([ssh])[..0] == [];
    ParseSshUriAsWrittenRoundTrip(host, port);
  }

  /** As written, the one-letter host `h` is stripped away with the scheme,
      so `ssh://h:22` leaves `22`, which has no colon. */
  lemma ParseSshUriAsWrittenShortHost(uri: string)
    requires uri == "ssh://h:22"
    ensures ParseSshUriAsWritten(uri).None?
  {
    assert forall i :: 0 <= i < |uri| && uri[i] == ':' ==> forall k :: 0 <= k <= i ==> uri[k] in SchemeChars by {
      assert forall k :: 0 <= k < 8 ==> uri[k] in SchemeChars;
      assert forall i :: 8 <= i < |uri| ==> uri[i] != ':';
    }
  }

  /** So, as written, a bucket reached at `ssh://h:22` is rejected as an
      invalid URI. */
  lemma ConnectRejectsShortHost(bucket: Bucket)
    requires bucket.credentials == [Credential("ssh", "ssh://h:22")]
    ensures Connect(bucket) == Fail(InvalidSshUri("ssh://h:22"))
  {
    assert bucket.credentials[0].protocol == "ssh";
    assert SshUri(bucket.credentials) == Some("ssh://h:22");
    ParseSshUriAsWrittenShortHost("ssh://h:22");
  }

  /** The evidently intended endpoint: the same steps with the URI split by
      `ParseSshUri`. */
  function ConnectIntended(bucket: Bucket): (r: Verdict<Endpoint>)
    ensures !r.Propagate?
    ensures r == Fail(SshNotConfigured(bucket.uuidRef)) <==> SshUri(bucket.credentials).None?
    ensures r.Fail? && SshUri(bucket.credentials).Some? ==>
              && r.error == InvalidSshUri(SshUri(bucket.credentials).value)
              && ParseSshUri(SshUri(bucket.credentials).value).None?
    ensures r.Ready? ==> exists host, port :: && ParseSshUri(SshUri(bucket.credentials).value) == Some((host, port))
                                              && r.value == Endpoint(Remote(host), port)
  {
    match SshUri(bucket.credentials)
    case None => Fail(SshNotConfigured(bucket.uuidRef))
    case Some(uri) =>
      match ParseSshUri(uri)
      case None => Fail(InvalidSshUri(uri))
      case Some((host, port)) => Ready(Endpoint(Remote(host), port))
  }

  /** Intended round trip: a bucket whose last `ssh` credential is
      `ssh://HOST:PORT` is always reached at `HOST:/buffer` on port PORT. */
  lemma ConnectIntendedRoundTrip(bucket: Bucket, earlier: seq<Credential>, later: seq<Credential>, host: string, port: string)
    requires ':' !in host
    requires bucket.credentials == earlier + [Credential("ssh", SshScheme + host + ":" + port)] + later
    requires forall i :: 0 <= i < |later| ==> later[i].protocol != "ssh"
    ensures ConnectIntended(bucket) == Ready(Endpoint(Remote(host), port))
  {
    var ssh := Credential("ssh", SshScheme + host + ":" + port);
    SshUriAppend(earlier + [ssh], later);
    SshUriAppend(earlier, [ssh]);
    assert ([ssh])[..0] == [];
    ParseSshUriRoundTrip(host, port);
  }
}
