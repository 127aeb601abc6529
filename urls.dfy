/** The request URLs (main.go, getUrl, and the suffixes added by sendStatus and
    sendGuess). The host is spliced in as it is, without escaping. */
module Urls {
  import opened WordleTypes

  const ProductionServer: string := "extendocompute"
  const TestServer: string := "extendotest"
  const Scheme: string := "http://"
  const Domain: string := ".eastus.cloudapp.azure.com:3000/rest/"
  const Tail: string := "/wordle"

  /** "orgs" for a bare org, "repos" as soon as the host holds a `/`. */
  function Kind(host: string): (r: string)
    ensures r == "orgs" || r == "repos"
  {
    if '/' in host then "repos" else "orgs"
  }

  function Server(test: bool): (r: string)
    ensures r == TestServer <==> test
  {
    if test then TestServer else ProductionServer
  }

  /** Everything before the kind: scheme, server and the fixed domain and port. */
  function Prefix(test: bool): string
  {
    Scheme + Server(test) + Domain
  }

  /** Everything from the kind on: <kind>/<host>/wordle. */
  function Path(host: string): string
  {
    Kind(host) + "/" + host + Tail
  }

  /** getUrl: http://<server>.eastus.cloudapp.azure.com:3000/rest/<kind>/<host>/wordle */
  function BaseUrl(loc: Locator): (r: string)
    ensures Prefix(loc.test) <= r
  {
    Prefix(loc.test) + Path(loc.host)
  }

  /** The URL fetched by sendStatus. */
  function StatusUrl(loc: Locator): (r: string)
    ensures BaseUrl(loc) <= r
  {
    BaseUrl(loc) + "/status"
  }

  /** The URL posted to by sendGuess. */
  function GuessUrl(loc: Locator, word: string): (r: string)
    ensures BaseUrl(loc) <= r && |r| == |BaseUrl(loc)| + 1 + |word|
  {
    BaseUrl(loc) + "/" + word
  }

  /** Reads a locator back out of a base URL; None for anything getUrl cannot
      produce. */
  function ParseUrl(url: string): Option<Locator>
  {
    if Prefix(true) <= url then ParseKindAndHost(url[|Prefix(true)|..], true)
    else if Prefix(false) <= url then ParseKindAndHost(url[|Prefix(false)|..], false)
    else None
  }

  /** Reads `<kind>/<host>/wordle`, insisting that the kind fits the host. */
  function ParseKindAndHost(rest: string, test: bool): Option<Locator>
  {
    if |rest| < |Tail| || rest[|rest| - |Tail|..] != Tail then None
    else
      var body := rest[..|rest| - |Tail|];
      if "orgs/" <= body && '/' !in body[5..] then Some(Locator(body[5..], test))
      else if "repos/" <= body && '/' in body[6..] then Some(Locator(body[6..], test))
      else None
  }

  /** The two server prefixes differ, and neither is a prefix of a URL built on
      the other. */
  lemma PrefixesDiffer(test: bool, rest: string)
    ensures Prefix(test) <= Prefix(test) + rest
    ensures !(Prefix(!test) <= Prefix(test) + rest)
  {
    var u := Prefix(test) + rest;
    assert u[14] == (if test then 't' else 'c');
    assert Prefix(!test)[14] == (if test then 'c' else 't');
  }

  /** The two parts of a concatenation can be cut out of it again. */
  lemma Parts(a: string, b: string)
    ensures a <= a + b
    ensures (a + b)[|a|..] == b
  {
  }

  /** The kind is "orgs" exactly when the host has no `/`, and "repos" otherwise;
      the server is the test one exactly when the test flag is set; after the
      server's prefix comes the path, which ends with the host verbatim and then
      "/wordle". */
  lemma BaseUrlShape(loc: Locator)
    ensures Kind(loc.host) == "orgs" <==> '/' !in loc.host
    ensures Kind(loc.host) == "repos" <==> '/' in loc.host
    ensures Server(loc.test) == TestServer <==> loc.test
    ensures Prefix(loc.test) <= BaseUrl(loc)
    ensures BaseUrl(loc)[|Prefix(loc.test)|..] == Path(loc.host)
    ensures Path(loc.host)[|Kind(loc.host)| + 1..] == loc.host + Tail
  {
    Parts(Prefix(loc.test), Path(loc.host));
    var head := Kind(loc.host) + "/";
    assert Path(loc.host) == head + (loc.host + Tail);
    Parts(head, loc.host + Tail);
  }

  /** Reading a URL built on a server prefix reads the rest under that server. */
  lemma ParseAfterPrefix(test: bool, rest: string)
    ensures ParseUrl(Prefix(test) + rest) == ParseKindAndHost(rest, test)
  {
    var u := Prefix(test) + rest;
    PrefixesDiffer(test, rest);
    assert u[|Prefix(test)|..] == rest;
  }

  /** The kind, host and tail that getUrl writes read back as that host. */
  lemma ParseKindAndHostBack(host: string, test: bool)
    ensures ParseKindAndHost(Path(host), test) == Some(Locator(host, test))
  {
    var body := Kind(host) + "/" + host;
    var rest := body + Tail;
    assert rest[|rest| - |Tail|..] == Tail;
    assert rest[..|rest| - |Tail|] == body;
    if '/' in host {
      assert body == "repos/" + host;
      assert body[6..] == host;
      assert body[0] == 'r';
    } else {
      assert body == "orgs/" + host;
      assert body[5..] == host;
    }
  }

  /** getUrl loses nothing: the locator can be read back from its URL. */
  lemma ParseBaseUrl(loc: Locator)
    ensures ParseUrl(BaseUrl(loc)) == Some(loc)
  {
    ParseAfterPrefix(loc.test, Path(loc.host));
    ParseKindAndHostBack(loc.host, loc.test);
  }

  /** A sequence that starts with `p` is `p` followed by the rest. */
  lemma SplitPrefix(p: string, s: string)
    requires p <= s
    ensures s == p + s[|p|..]
  {
  }

  /** A sequence that ends with `t` is the rest followed by `t`. */
  lemma SplitSuffix(s: string, t: string)
    requires |s| >= |t| && s[|s| - |t|..] == t
    ensures s == s[..|s| - |t|] + t
  {
  }

  /** A URL that reads back as a locator is written again by getUrl. */
  lemma ParsedKindAndHost(rest: string, test: bool, loc: Locator)
    requires ParseKindAndHost(rest, test) == Some(loc)
    ensures loc.test == test
    ensures Path(loc.host) == rest
  {
    var body := rest[..|rest| - |Tail|];
    SplitSuffix(rest, Tail);
    if "orgs/" <= body && '/' !in body[5..] {
      SplitPrefix("orgs/", body);
      assert Kind(loc.host) + "/" == "orgs/";
    } else {
      SplitPrefix("repos/", body);
      assert Kind(loc.host) + "/" == "repos/";
    }
  }

  /** A URL under a server prefix whose rest reads back is that locator's URL. */
  lemma ParsedUnderPrefix(url: string, test: bool, loc: Locator)
    requires Prefix(test) <= url
    requires ParseKindAndHost(url[|Prefix(test)|..], test) == Some(loc)
    ensures BaseUrl(loc) == url
  {
    var rest := url[|Prefix(test)|..];
    SplitPrefix(Prefix(test), url);
    ParsedKindAndHost(rest, test, loc);
  }

  /** Every URL that reads back as a locator is that locator's URL. */
  lemma ParsedUrlIsBaseUrl(url: string, loc: Locator)
    requires ParseUrl(url) == Some(loc)
    ensures BaseUrl(loc) == url
  {
    if Prefix(true) <= url {
      ParsedUnderPrefix(url, true, loc);
    } else {
      ParsedUnderPrefix(url, false, loc);
    }
  }

  /** Two locators with the same base URL are the same locator. */
  lemma BaseUrlInjective(a: Locator, b: Locator)
    requires BaseUrl(a) == BaseUrl(b)
    ensures a == b
  {
    ParseBaseUrl(a);
    ParseBaseUrl(b);
  }

  /** The status URL and every guess URL extend the same base URL. */
  lemma SharedPrefix(loc: Locator, word: string)
    ensures BaseUrl(loc) <= StatusUrl(loc)
    ensures BaseUrl(loc) <= GuessUrl(loc, word)
    ensures GuessUrl(loc, word)[|BaseUrl(loc)|..] == "/" + word
    ensures StatusUrl(loc)[|BaseUrl(loc)|..] == "/status"
  {
    assert GuessUrl(loc, word) == BaseUrl(loc) + ("/" + word);
  }

  /** Without escaping, the guess "status" is posted to the status URL. */
  lemma GuessStatusCollides(loc: Locator)
    ensures GuessUrl(loc, "status") == StatusUrl(loc)
  {
  }

  /** Without escaping, two different games can be sent the same guess URL:
      a `/` in the word reads like more of the host. */
  lemma GuessUrlAmbiguous()
    ensures GuessUrl(Locator("o/r", false), "x/wordle/y") == GuessUrl(Locator("o/r/wordle/x", false), "y")
  {
  }

  /** Examples: a bare org goes under "orgs", an org and repository under "repos". */
  lemma KindExamples()
    ensures Kind("my-org") == "orgs"
    ensures Kind("my-org/my-repo") == "repos"
  {
    assert "my-org/my-repo"[6] == '/';
  }
}
