/** test_presure/webbench-1.5/webbench.c: build_request, and what the server's parser makes of its output. */
module Webbench {
  import opened Wrappers
  import opened Text
  import opened Buffers
  import opened CStrings
  import opened HttpRequests
  import opened HttpContexts
  import opened RequestLines
  import opened ChunkSplits
  import opened Framing
  import opened HttpResponses

  const REQUEST_SIZE: nat := 2048
  const HOST_SIZE: nat := 64      // MAXHOSTNAMELEN
  const PORT_SIZE: nat := 10

  datatype BenchMethod = MGet | MHead | MOptions | MTrace

  /** The command line: method, HTTP level (0, 1 or 2), --reload, --proxy. */
  datatype Options = Options(verb: BenchMethod, http10: int, reload: bool, proxy: bool)

  datatype UrlError = NotAUrl | TooLong | NotHttp | NoSlash

  ghost predicate MarkAt(s: string, i: int) {
    0 <= i && i + 2 < |s| && s[i] == ':' && s[i + 1] == '/' && s[i + 2] == '/'
  }

  /** strstr for "://": the first occurrence, or |s|. */
  function FindScheme(s: string): (i: nat)
    ensures i <= |s|
    ensures i < |s| ==> MarkAt(s, i)
    ensures forall j :: 0 <= j < i ==> !MarkAt(s, j)
  {
    if |s| < 3 then |s|
    else if s[0] == ':' && s[1] == '/' && s[2] == '/' then 0
    else
      var i := 1 + FindScheme(s[1..]);
      assert forall j :: 1 <= j ==> (MarkAt(s, j) <==> MarkAt(s[1..], j - 1));
      i
  }

  lemma SchemeAt(s: string, i: nat)
    requires MarkAt(s, i) && forall j :: 0 <= j < i ==> !MarkAt(s, j)
    ensures FindScheme(s) == i
  {
    var k := FindScheme(s);
    assert k < |s| ==> MarkAt(s, k);
  }

  function Lower(c: char): char {
    if 'A' <= c <= 'Z' then (c as int - 'A' as int + 'a' as int) as char else c
  }

  /** strncasecmp("http://", url, 7) == 0. */
  predicate IsHttp(url: string) {
    |url| >= 7 && (forall i :: 0 <= i < 7 ==> Lower(url[i]) == "http://"[i])
  }

  function CheckUrl(o: Options, url: string): Option<UrlError> {
    if FindScheme(url) == |url| then Some(NotAUrl)
    else if |url| > 1500 then Some(TooLong)
    else if !o.proxy && !IsHttp(url) then Some(NotHttp)
    else if '/' !in url[FindScheme(url) + 3..] then Some(NoSlash)
    else None
  }

  /** What follows the scheme: host, optional port, and the target from the first '/'. */
  function Authority(url: string): string
    requires FindScheme(url) < |url|
  {
    url[FindScheme(url) + 3..]
  }

  function HostOf(url: string): string
    requires FindScheme(url) < |url|
  {
    var a := Authority(url);
    if Find(a, ':') < Find(a, '/') then a[..Find(a, ':')] else a[..Find(a, '/')]
  }

  function TargetOf(o: Options, url: string): string
    requires FindScheme(url) < |url|
  {
    if o.proxy then url else Authority(url)[Find(Authority(url), '/')..]
  }

  /** The HTTP level used: reloading through a proxy and HEAD need 1.0, OPTIONS and TRACE need 1.1. */
  function Level(o: Options): int {
    var h := if o.reload && o.proxy && o.http10 < 1 then 1 else o.http10;
    var h := if o.verb == MHead && h < 1 then 1 else h;
    if (o.verb == MOptions || o.verb == MTrace) && h < 2 then 2 else h
  }

  function MethodText(m: BenchMethod): string {
    match m
    case MGet => "GET"
    case MHead => "HEAD"
    case MOptions => "OPTIONS"
    case MTrace => "TRACE"
  }

  /** The text between the host's ':' and the first '/', when there is one. */
  function PortText(url: string): string
    requires FindScheme(url) < |url|
  {
    var a := Authority(url);
    if Find(a, ':') < Find(a, '/') then a[Find(a, ':') + 1..Find(a, '/')] else []
  }

  /** The port connected to: 80 when the URL's port reads as 0. */
  function PortOf(o: Options, url: string, before: int): int
    requires FindScheme(url) < |url|
  {
    if o.proxy || Find(Authority(url), '/') <= Find(Authority(url), ':') then before
    else if Atoi(PortText(url)) == 0 then 80
    else Atoi(PortText(url))
  }

  /** The headers that may be printed. */
  function BenchHeaders(o: Options, url: string): map<string, string>
    requires FindScheme(url) < |url|
  {
    map["User-Agent" := "WebBench 1.5", "Host" := if o.proxy then "" else HostOf(url),
        "Pragma" := "no-cache", "Connection" := "close"]
  }

  function BenchKeys(o: Options): seq<string> {
    ["User-Agent"] + (if !o.proxy then ["Host"] else [])
    + (if o.reload && o.proxy then ["Pragma"] else []) + (if Level(o) > 1 then ["Connection"] else [])
  }

  /** The strings build_request stores all fit into their arrays: the host and the port are copied by strncpy without
      a bound, and only when there is no proxy. */
  predicate ArraysFit(o: Options, url: string)
    requires FindScheme(url) < |url|
  {
    o.proxy || (|HostOf(url)| < HOST_SIZE && |PortText(url)| < PORT_SIZE)
  }

  /** The program's globals. */
  class Bench {
    var http10: int
    var proxyport: int
    const host: array<char>
    const request: array<char>

    ghost predicate Valid()
      reads this
    {
      host != request && host.Length == HOST_SIZE && request.Length == REQUEST_SIZE
    }

    constructor (level: int)
      ensures Valid() && fresh(host) && fresh(request) && http10 == level && proxyport == 80
    {
      http10, proxyport := level, 80;
      host := new char[HOST_SIZE](_ => NUL);
      request := new char[REQUEST_SIZE](_ => NUL);
    }

    /** Prints the request for url into `request`, or refuses the url (where the program exits). The url is a C string;
        one that is accepted must not overrun the arrays for the host and the port. */
    method BuildRequest(o: Options, url: string) returns (error: Option<UrlError>)
      requires Valid() && http10 == o.http10 && NUL !in url
      requires CheckUrl(o, url) == None ==> ArraysFit(o, url)
      modifies this, host, request
      ensures error == CheckUrl(o, url) && http10 == Level(o)
      ensures error == None ==> CString(request[..]) == RequestText(o, url)
      ensures error == None && !o.proxy ==> CString(host[..]) == HostOf(url)
      ensures error == None ==> proxyport == PortOf(o, url, old(proxyport))
    {
      hide Level, MethodText, IsHttp, RequestText, Atoi, CString;
      BZero(host);
      BZero(request);
      ChooseLevel(o);
      PrintMethod(o);
      var at := FindScheme(url);
      if at == |url| { return Some(NotAUrl); }
      if |url| > 1500 { return Some(TooLong); }
      if !o.proxy && !IsHttp(url) { return Some(NotHttp); }
      if Find(url[at + 3..], '/') == |url| - at - 3 { return Some(NoSlash); }
      StoreTarget(o, url);
      AppendLines(o, url);
      error := None;
    }

    method ChooseLevel(o: Options)
      requires http10 == o.http10
      modifies this`http10
      ensures http10 == Level(o)
    {
      if o.reload && o.proxy && http10 < 1 { http10 := 1; }
      if o.verb == MHead && http10 < 1 { http10 := 1; }
      if o.verb == MOptions && http10 < 2 { http10 := 2; }
      if o.verb == MTrace && http10 < 2 { http10 := 2; }
    }

    method PrintMethod(o: Options)
      requires Valid() && CString(request[..]) == []
      modifies request
      ensures CString(request[..]) == MethodText(o.verb) + " "
    {
      hide CString;
      MethodFits(o.verb);
      StrCat(request, MethodText(o.verb));
      StrCat(request, " ");
    }

    /** The host and the port are copied out of the url, and the target is printed. */
    method StoreTarget(o: Options, url: string)
      requires Valid() && NUL !in url && FindScheme(url) < |url| && CheckUrl(o, url) == None && ArraysFit(o, url)
      requires AllNul(host[..]) && CString(request[..]) == MethodText(o.verb) + " "
      modifies this`proxyport, host, request
      ensures CString(request[..]) == MethodText(o.verb) + " " + TargetOf(o, url)
      ensures !o.proxy ==> CString(host[..]) == HostOf(url)
      ensures proxyport == PortOf(o, url, old(proxyport))
    {
      hide MethodText, Level, CString, IsHttp, HostOf, PortText, PortOf;
      PartsFit(o, url);
      MethodFits(o.verb);
      if !o.proxy {
        StoreHost(o, url);
        var rest := url[FindScheme(url) + 3..];
        StrCat(request, rest[Find(rest, '/')..]);
      } else {
        NoPort(o, url, proxyport);
        StrCat(request, url);
      }
    }

    method StoreHost(o: Options, url: string)
      requires Valid() && NUL !in url && FindScheme(url) < |url| && CheckUrl(o, url) == None && ArraysFit(o, url)
      requires AllNul(host[..]) && !o.proxy
      modifies this`proxyport, host
      ensures CString(host[..]) == HostOf(url) && proxyport == PortOf(o, url, old(proxyport))
    {
      hide Atoi, CString, IsHttp;
      var rest := url[FindScheme(url) + 3..];
      var slash, colon := Find(rest, '/'), Find(rest, ':');
      if colon < |rest| && colon < slash {
        StrNCpy(host, rest[..colon]);
        var tmp := new char[PORT_SIZE];
        BZero(tmp);
        NoNulSlice(rest, colon + 1, slash);
        StrNCpy(tmp, rest[colon + 1..slash]);
        proxyport := Atoi(CString(tmp[..]));
        if proxyport == 0 { proxyport := 80; }
      } else {
        StrNCpy(host, rest[..slash]);
      }
    }

    /** The part of build_request after the target: version, header lines, empty line. */
    method AppendLines(o: Options, url: string)
      requires Valid() && NUL !in url && FindScheme(url) < |url| && CheckUrl(o, url) == None && http10 == Level(o)
      requires !o.proxy ==> CString(host[..]) == HostOf(url)
      requires CString(request[..]) == MethodText(o.verb) + " " + TargetOf(o, url)
      modifies request
      ensures CString(request[..]) == RequestText(o, url)
    {
      hide CheckUrl, TargetOf, HostOf, Level, MethodText, CString, HeaderBlockText;
      RequestFits(o, url);
      if http10 == 1 {
        StrCat(request, " HTTP/1.0");
      } else if http10 == 2 {
        StrCat(request, " HTTP/1.1");
      }
      StrCat(request, CRLF);
      assert CString(request[..]) == RequestLine(o, url) + CRLF;
      AppendHeaderBlock(o, url);
    }

    method AppendHeaderBlock(o: Options, url: string)
      requires Valid() && NUL !in url && FindScheme(url) < |url| && http10 == Level(o)
      requires !o.proxy ==> CString(host[..]) == HostOf(url)
      requires |CString(request[..])| + |HeaderBlockText(o, url)| < REQUEST_SIZE
      modifies request
      ensures CString(request[..]) == old(CString(request[..])) + HeaderBlockText(o, url)
    {
      hide HostOf, Level, AgentLine, HostLine, PragmaLine, CloseLine, CString;
      AppendAgentAndHost(o, url);
      AppendPragmaAndClose(o);
      if http10 > 0 {
        StrCat(request, CRLF);
      }
    }

    method AppendPragmaAndClose(o: Options)
      requires Valid() && http10 == Level(o)
      requires |CString(request[..])| + |PragmaLine(o) + CloseLine(o)| < REQUEST_SIZE
      modifies request
      ensures CString(request[..]) == old(CString(request[..])) + (PragmaLine(o) + CloseLine(o))
    {
      hide Level, CString;
      if o.reload && o.proxy {
        StrCat(request, "Pragma: no-cache\r\n");
      }
      assert CString(request[..]) == old(CString(request[..])) + PragmaLine(o);
      if http10 > 1 {
        StrCat(request, "Connection: close\r\n");
      }
    }

    method AppendAgentAndHost(o: Options, url: string)
      requires Valid() && NUL !in url && FindScheme(url) < |url| && http10 == Level(o)
      requires !o.proxy ==> CString(host[..]) == HostOf(url)
      requires |CString(request[..])| + |AgentLine(o) + HostLine(o, url)| < REQUEST_SIZE
      modifies request
      ensures CString(request[..]) == old(CString(request[..])) + (AgentLine(o) + HostLine(o, url))
    {
      hide HostOf, Level, CString;
      if http10 > 0 {
        StrCat(request, "User-Agent: WebBench 1.5\r\n");
      }
      assert CString(request[..]) == old(CString(request[..])) + AgentLine(o);
      if !o.proxy && http10 > 0 {
        HostNoNul(url);
        StrCat(request, "Host: ");
        StrCat(request, CString(host[..]));
        StrCat(request, CRLF);
      }
    }
  }

  lemma NoPort(o: Options, url: string, before: int)
    requires FindScheme(url) < |url| && o.proxy
    ensures PortOf(o, url, before) == before
  {
  }

  lemma MethodFits(m: BenchMethod)
    ensures |MethodText(m)| <= 7 && NUL !in MethodText(m)
  {
    match m {
      case MGet =>
      case MHead =>
      case MOptions =>
      case MTrace =>
    }
  }

  lemma HostNoNul(url: string)
    requires FindScheme(url) < |url| && NUL !in url
    ensures NUL !in HostOf(url)
  {
    assert forall c :: c in HostOf(url) ==> c in Authority(url);
    assert forall c :: c in Authority(url) ==> c in url;
  }

  /** An array holds a string when the string and its NUL fit. */
  predicate Holds(size: nat, s: string) { |s| + 1 <= size }

  /** Everything build_request stores for an accepted url fits, with its NUL, if and only if there is a proxy, or the
      host has at most 63 characters and the port at most 9: the request array is never the one that is too small. */
  lemma ArraysFitExact(o: Options, url: string)
    requires FindScheme(url) < |url| && CheckUrl(o, url) == None
    ensures Holds(REQUEST_SIZE, RequestText(o, url))
      && (!o.proxy ==> Holds(HOST_SIZE, HostOf(url)) && Holds(PORT_SIZE, PortText(url)))
      <==> o.proxy || (|HostOf(url)| <= 63 && |PortText(url)| <= 9)
  {
    RequestFits(o, url);
  }

  /** An accepted url whose host does not fit. */
  lemma HostOverruns(o: Options) returns (url: string)
    requires !o.proxy
    ensures FindScheme(url) < |url| && CheckUrl(o, url) == None && NUL !in url && !ArraysFit(o, url)
  {
    var name := seq(64, _ => 'a');
    url := "http://" + name + "/";
    HttpUrl(o, url, name);
  }

  lemma HttpUrl(o: Options, url: string, name: string)
    requires |name| < 1000 && '/' !in name && ':' !in name && NUL !in name && url == "http://" + name + "/"
    ensures FindScheme(url) < |url| && CheckUrl(o, url) == None && HostOf(url) == name && NUL !in url
  {
    HttpParts(url, name);
    HostAndSlash(name);
    SlashIn(name);
    UrlNoNul(name);
    hide FindScheme, IsHttp, Find;
    assert url[7..] == name + "/" && (name + "/")[..|name|] == name;
  }

  lemma SlashIn(name: string)
    ensures '/' in name + "/"
  {
    assert (name + "/")[|name|] == '/';
  }

  lemma UrlNoNul(name: string)
    requires NUL !in name
    ensures NUL !in "http://" + name + "/"
  {
  }

  lemma HostAndSlash(name: string)
    requires '/' !in name && ':' !in name
    ensures Find(name + "/", '/') == |name| && Find(name + "/", ':') == |name| + 1
  {
    var a := name + "/";
    assert a[..|name|] == name && a[..|a|] == a;
    FindIs(a, '/', |name|);
    FindIs(a, ':', |a|);
  }

  lemma HttpParts(url: string, name: string)
    requires url == "http://" + name + "/"
    ensures FindScheme(url) == 4 && Authority(url) == name + "/" && IsHttp(url)
  {
    MarkBehind("http", name + "/");
    assert "http://" + name + "/" == "http" + "://" + (name + "/");
    assert url[0] == 'h' && url[1] == 't' && url[2] == 't' && url[3] == 'p';
    SchemeAt(url, 4);
  }

  // ---- the parts of a url ----

  /** The url in three: what precedes the first "://", what follows up to the first '/', and the rest. */
  ghost predicate Splits(url: string, scheme: string, authority: string, target: string) {
    && url == scheme + "://" + (authority + target)
    && (forall j :: 0 <= j < |scheme| ==> !MarkAt(url, j))
    && '/' !in authority && target != [] && target[0] == '/'
  }

  lemma UrlSplits(url: string) returns (scheme: string, authority: string, target: string)
    requires FindScheme(url) < |url| && '/' in Authority(url)
    ensures Splits(url, scheme, authority, target)
  {
    var i, a := FindScheme(url), Authority(url);
    var j := Find(a, '/');
    scheme, authority, target := url[..i], a[..j], a[j..];
    hide Find, FindScheme;
    assert authority + target == a;
    AroundMark(url, i);
  }

  lemma AroundMark(s: string, i: nat)
    requires MarkAt(s, i)
    ensures s == s[..i] + "://" + s[i + 3..]
  {
    assert s[i..i + 3] == "://";
  }

  lemma MarkBehind(scheme: string, rest: string)
    ensures var s := scheme + "://" + rest; MarkAt(s, |scheme|) && s[|scheme| + 3..] == rest
  {
  }

  lemma FindSlash(authority: string, target: string)
    requires '/' !in authority && target != [] && target[0] == '/'
    ensures Find(authority + target, '/') == |authority|
  {
    var a := authority + target;
    assert a[..|authority|] == authority;
    FindIs(a, '/', |authority|);
  }

  lemma FindColon(authority: string, target: string)
    requires ':' in authority
    ensures Find(authority + target, ':') == Find(authority, ':') < |authority|
  {
    var a, k := authority + target, Find(authority, ':');
    assert a[..k] == authority[..k];
    FindIs(a, ':', k);
  }

  lemma NoColon(authority: string, target: string)
    requires ':' !in authority && target != [] && target[0] == '/'
    ensures Find(authority + target, ':') > |authority| && Find(authority, ':') == |authority|
  {
    var a := authority + target;
    assert a[..|authority| + 1] == authority + "/";
    NotBefore(a, ':', |authority| + 1);
  }

  lemma NotBefore(s: string, c: char, n: nat)
    requires n <= |s| && c !in s[..n]
    ensures Find(s, c) >= n
  {
  }

  /** What build_request takes from the parts: the host is the authority up to its first ':', the port text what
      follows it, and the target is printed, or the whole url to a proxy. */
  lemma UrlParts(o: Options, url: string, scheme: string, authority: string, target: string)
    requires Splits(url, scheme, authority, target)
    ensures FindScheme(url) == |scheme| < |url| && Authority(url) == authority + target && '/' in Authority(url)
    ensures TargetOf(o, url) == if o.proxy then url else target
    ensures HostOf(url) == authority[..Find(authority, ':')]
    ensures PortText(url) == if ':' in authority then authority[Find(authority, ':') + 1..] else []
  {
    AuthorityIs(url, scheme, authority, target);
    SlashInside(authority, target);
    FindSlash(authority, target);
    HostIs(url, authority, target);
    hide FindScheme, Find, Splits, HostOf, PortText, Authority;
    assert (authority + target)[|authority|..] == target;
  }

  lemma HostIs(url: string, authority: string, target: string)
    requires FindScheme(url) < |url| && Authority(url) == authority + target
    requires '/' !in authority && target != [] && target[0] == '/'
    ensures HostOf(url) == authority[..Find(authority, ':')]
    ensures PortText(url) == if ':' in authority then authority[Find(authority, ':') + 1..] else []
  {
    FindSlash(authority, target);
    CutAuthority(authority, target, Find(authority, ':'));
    hide FindScheme, Authority;
    if ':' in authority {
      FindColon(authority, target);
    } else {
      NoColon(authority, target);
    }
    hide Find;
  }

  lemma SlashInside(authority: string, target: string)
    requires target != [] && target[0] == '/'
    ensures '/' in authority + target
  {
    assert (authority + target)[|authority|] == '/';
  }

  lemma AuthorityIs(url: string, scheme: string, authority: string, target: string)
    requires Splits(url, scheme, authority, target)
    ensures FindScheme(url) == |scheme| < |url| && Authority(url) == authority + target
  {
    MarkBehind(scheme, authority + target);
    SchemeAt(url, |scheme|);
  }

  lemma CutAuthority(authority: string, target: string, k: nat)
    requires k <= |authority|
    ensures var a := authority + target;
      && a[..|authority|] == authority && a[|authority|..] == target && a[..k] == authority[..k]
      && (k < |authority| ==> a[k + 1..|authority|] == authority[k + 1..]) && authority[..|authority|] == authority
  {
  }

  /** The prefix is recognised in any mixture of cases. */
  lemma IsHttpExact(url: string)
    ensures IsHttp(url) <==>
      && |url| >= 7 && url[0] in "hH" && url[1] in "tT" && url[2] in "tT" && url[3] in "pP"
      && url[4] == ':' && url[5] == '/' && url[6] == '/'
  {
    assert "http://"[0] == 'h' && "http://"[1] == 't' && "http://"[2] == 't' && "http://"[3] == 'p';
    assert "http://"[4] == ':' && "http://"[5] == '/' && "http://"[6] == '/';
  }

  ghost predicate CanSplit(url: string) {
    exists scheme: string, authority: string, target: string :: Splits(url, scheme, authority, target)
  }

  lemma CanSplitIs(url: string)
    ensures CanSplit(url) <==> FindScheme(url) < |url| && '/' in Authority(url)
  {
    hide FindScheme, Splits;
    if FindScheme(url) < |url| && '/' in Authority(url) {
      var scheme, authority, target := UrlSplits(url);
    }
    if scheme: string, authority: string, target: string :| Splits(url, scheme, authority, target) {
      AuthorityIs(url, scheme, authority, target);
      SlashBehind(url, scheme, authority, target);
    }
  }

  lemma SlashBehind(url: string, scheme: string, authority: string, target: string)
    requires Splits(url, scheme, authority, target)
    ensures '/' in authority + target
  {
    SlashInside(authority, target);
  }

  /** The accepted urls, exactly. */
  lemma CheckUrlExact(o: Options, url: string)
    ensures CheckUrl(o, url) == None <==> |url| <= 1500 && (o.proxy || IsHttp(url)) && CanSplit(url)
  {
    CanSplitIs(url);
    hide FindScheme, IsHttp, CanSplit;
  }

  /** The port connected to: unchanged with a proxy or without a ':', and otherwise the number the port text begins
      with, or 80 when that is 0 or there is none. */
  lemma PortExact(o: Options, url: string, scheme: string, authority: string, target: string, before: int)
    requires Splits(url, scheme, authority, target)
    ensures FindScheme(url) < |url|
    ensures o.proxy || ':' !in authority ==> PortOf(o, url, before) == before
    ensures !o.proxy && ':' in authority ==>
      var port := authority[Find(authority, ':') + 1..];
      && (ReadInt(port) == None || ReadInt(port) == Some(0) ==> PortOf(o, url, before) == 80)
      && (ReadInt(port).Some? && ReadInt(port).value != 0 ==> PortOf(o, url, before) == ReadInt(port).value)
  {
    UrlParts(o, url, scheme, authority, target);
    FindSlash(authority, target);
    if ':' in authority {
      FindColon(authority, target);
    } else {
      NoColon(authority, target);
    }
    hide ReadInt, Find, FindScheme, Authority, PortText;
  }

  /** The level used is the least one, not below the one asked for, that the options need. */
  lemma LevelExact(o: Options)
    ensures Needs(o, Level(o)) && forall h :: Needs(o, h) ==> Level(o) <= h
  {
  }

  predicate Needs(o: Options, h: int) {
    && o.http10 <= h
    && (o.verb == MHead || (o.reload && o.proxy) ==> 1 <= h)
    && (o.verb == MOptions || o.verb == MTrace ==> 2 <= h)
  }

  lemma BlockFits(o: Options, url: string)
    requires FindScheme(url) < |url|
    ensures |HeaderBlockText(o, url)| <= 65 + (if o.proxy then 0 else 8 + |HostOf(url)|)
  {
    hide Level, HostOf;
  }

  lemma PartsFit(o: Options, url: string)
    requires FindScheme(url) < |url| && CheckUrl(o, url) == None
    ensures (if o.proxy then 0 else |HostOf(url)|) + |TargetOf(o, url)| <= 1500
  {
  }

  /** The printed request fits its array, whatever the lengths of host and port. */
  lemma RequestFits(o: Options, url: string)
    requires FindScheme(url) < |url| && CheckUrl(o, url) == None
    ensures |RequestText(o, url)| < REQUEST_SIZE
  {
    hide Level, HostOf, TargetOf, CheckUrl, HeaderBlockText;
    PartsFit(o, url);
    BlockFits(o, url);
  }

  function VersionSuffix(level: int): string {
    if level == 1 then " HTTP/1.0" else if level == 2 then " HTTP/1.1" else ""
  }

  function RequestLine(o: Options, url: string): string
    requires FindScheme(url) < |url|
  {
    MethodText(o.verb) + " " + TargetOf(o, url) + VersionSuffix(Level(o))
  }

  function AgentLine(o: Options): string {
    if Level(o) > 0 then "User-Agent: WebBench 1.5\r\n" else ""
  }

  function HostLine(o: Options, url: string): string
    requires FindScheme(url) < |url|
  {
    if !o.proxy && Level(o) > 0 then "Host: " + HostOf(url) + CRLF else ""
  }

  function PragmaLine(o: Options): string {
    if o.reload && o.proxy then "Pragma: no-cache\r\n" else ""
  }

  function CloseLine(o: Options): string {
    if Level(o) > 1 then "Connection: close\r\n" else ""
  }

  function HeaderBlockText(o: Options, url: string): string
    requires FindScheme(url) < |url|
  {
    AgentLine(o) + HostLine(o, url) + PragmaLine(o) + CloseLine(o) + (if Level(o) > 0 then CRLF else "")
  }

  function RequestText(o: Options, url: string): string
    requires FindScheme(url) < |url|
  {
    RequestLine(o, url) + CRLF + HeaderBlockText(o, url)
  }

  // ---- the round trip ----

  /** The url is accepted, fits, and its printed parts survive the wire: no space in the target, no CRLF, no white
      space around the host. */
  ghost predicate Sendable(o: Options, url: string) {
    && FindScheme(url) < |url| && CheckUrl(o, url) == None && ArraysFit(o, url) && NUL !in url
    && ' ' !in TargetOf(o, url) && NoCRLF(TargetOf(o, url))
    && (!o.proxy ==> NoCRLF(HostOf(url)) && Trimmed(HostOf(url)))
  }

  /** Every plain host name makes such a url. */
  lemma PlainUrlSendable(o: Options, name: string)
    requires !o.proxy && |name| < HOST_SIZE
    requires forall c :: c in name ==> !IsSpace(c) && c != '/' && c != ':' && c != NUL
    ensures Sendable(o, "http://" + name + "/")
  {
    var url := "http://" + name + "/";
    PlainTrimmed(name);
    HttpUrl(o, url, name);
    HttpParts(url, name);
    HostAndSlash(name);
    hide FindScheme, IsHttp, Find, CheckUrl, Trimmed;
    assert (name + "/")[|name|..] == "/" && NoCRLF("/");
  }

  lemma PlainTrimmed(name: string)
    requires forall c :: c in name ==> !IsSpace(c)
    ensures Trimmed(name) && NoCRLF(name)
  {
    forall i ensures !CrlfAt(name, i) {
      if 0 <= i < |name| {
        assert name[i] in name;
      }
    }
  }

  function MethodSent(m: BenchMethod): Method {
    match m
    case MGet => GET
    case MHead => HEAD
    case MOptions => OPTIONS
    case MTrace => TRACE
  }

  function VersionSent(level: int): Version {
    if level == 1 then kHttp10 else kHttp11
  }

  lemma MethodReadBack(m: BenchMethod)
    ensures MethodOf(MethodText(m)) == MethodSent(m)
    ensures ' ' !in MethodText(m) && NoCRLF(MethodText(m)) && MethodText(m) != []
    ensures MethodText(m)[|MethodText(m)| - 1] != '\r'
  {
    match m {
      case MGet =>
      case MHead =>
      case MOptions =>
      case MTrace =>
    }
  }

  lemma RequestLineClean(o: Options, url: string)
    requires Sendable(o, url)
    ensures NoCRLF(RequestLine(o, url))
  {
    hide ArraysFit, PortText, MethodOf, CheckUrl, TargetOf, HostOf;
    MethodReadBack(o.verb);
    var m, t := MethodText(o.verb), TargetOf(o, url);
    assert NoCRLF(" ") && NoCRLF(" HTTP/1.0") && NoCRLF(" HTTP/1.1");
    NoCRLFJoin(m, " ");
    NoCRLFJoin(m + " ", t);
    NoCRLFJoin(m + " " + t, VersionSuffix(Level(o)));
  }

  lemma RequestLineSpells(o: Options, url: string)
    requires Sendable(o, url) && (Level(o) == 1 || Level(o) == 2)
    ensures Spells(RequestLine(o, url), MethodText(o.verb), TargetOf(o, url), VersionSent(Level(o)))
  {
    hide ArraysFit, PortText, CheckUrl, TargetOf, HostOf;
    MethodReadBack(o.verb);
    assert " HTTP/1.0" == " " + "HTTP/1.0" && " HTTP/1.1" == " " + "HTTP/1.1";
  }

  lemma BenchPrintable(o: Options, url: string)
    requires Sendable(o, url)
    ensures AllPrintable(BenchHeaders(o, url))
    ensures forall k :: k in BenchKeys(o) ==> k in BenchHeaders(o, url)
  {
    hide ArraysFit, PortText, CheckUrl, TargetOf, HostOf;
    assert NoCRLF("User-Agent") && NoCRLF("Host") && NoCRLF("Pragma") && NoCRLF("Connection");
    assert NoCRLF("WebBench 1.5") && NoCRLF("no-cache") && NoCRLF("close");
  }

  lemma LinesOfJoin(headers: map<string, string>, a: seq<string>, b: seq<string>)
    requires (forall k :: k in a ==> k in headers) && (forall k :: k in b ==> k in headers)
    ensures EncodeHeaders(LinesOf(headers, a + b))
      == EncodeHeaders(LinesOf(headers, a)) + EncodeHeaders(LinesOf(headers, b))
  {
    hide LinesOf, EncodeHeaders, HeaderText;
    var la, lb := LinesOf(headers, a), LinesOf(headers, b);
    assert LinesOf(headers, a + b) == la + lb;
    EncodeHeadersJoin(la, lb);
  }

  /** The lines of a key that may be absent. */
  lemma MaybeKey(headers: map<string, string>, present: bool, k: string)
    requires k in headers
    ensures EncodeHeaders(LinesOf(headers, if present then [k] else []))
      == if present then HeaderText(k, headers[k]) + CRLF else ""
  {
    if present {
      assert LinesOf(headers, [k]) == [HeaderText(k, headers[k])];
      OneLine(HeaderText(k, headers[k]));
    }
  }

  lemma PrintedHeaders(o: Options, url: string)
    requires Sendable(o, url) && (Level(o) == 1 || Level(o) == 2)
    ensures var h := BenchHeaders(o, url);
      && AgentLine(o) == HeaderText("User-Agent", h["User-Agent"]) + CRLF
      && HostLine(o, url) == (if !o.proxy then HeaderText("Host", h["Host"]) + CRLF else "")
      && PragmaLine(o) == (if o.reload && o.proxy then HeaderText("Pragma", h["Pragma"]) + CRLF else "")
      && CloseLine(o) == (if Level(o) > 1 then HeaderText("Connection", h["Connection"]) + CRLF else "")
  {
    hide ArraysFit, PortText, CheckUrl, TargetOf, HostOf;
    assert "User-Agent" + ": " + "WebBench 1.5" + CRLF == "User-Agent: WebBench 1.5\r\n";
    assert "Host" + ": " == "Host: ";
    assert "Pragma" + ": " + "no-cache" + CRLF == "Pragma: no-cache\r\n";
    assert "Connection" + ": " + "close" + CRLF == "Connection: close\r\n";
  }

  /** The printed header block is the encoding of the header lines and the empty line. */
  lemma BlockIsLines(o: Options, url: string)
    requires Sendable(o, url) && (Level(o) == 1 || Level(o) == 2)
    requires forall k :: k in BenchKeys(o) ==> k in BenchHeaders(o, url)
    ensures HeaderBlockText(o, url) == EncodeHeaders(LinesOf(BenchHeaders(o, url), BenchKeys(o))) + CRLF
  {
    hide ArraysFit, PortText, CheckUrl, TargetOf, HostOf, LinesOf, EncodeHeaders, Level, AgentLine, HostLine, PragmaLine,
      CloseLine, HeaderText;
    PrintedHeaders(o, url);
    var h := BenchHeaders(o, url);
    var k2: seq<string> := if !o.proxy then ["Host"] else [];
    var k3: seq<string> := if o.reload && o.proxy then ["Pragma"] else [];
    var k4: seq<string> := if Level(o) > 1 then ["Connection"] else [];
    LinesOfJoin(h, ["User-Agent"] + k2 + k3, k4);
    LinesOfJoin(h, ["User-Agent"] + k2, k3);
    LinesOfJoin(h, ["User-Agent"], k2);
    MaybeKey(h, true, "User-Agent");
    MaybeKey(h, !o.proxy, "Host");
    MaybeKey(h, o.reload && o.proxy, "Pragma");
    MaybeKey(h, Level(o) > 1, "Connection");
    assert BenchKeys(o) == ["User-Agent"] + k2 + k3 + k4;
  }

  /** The bytes of a request for HTTP/1.0 or 1.1. */
  lemma RequestBytes(o: Options, url: string)
    requires FindScheme(url) < |url| && (Level(o) == 1 || Level(o) == 2)
    ensures RequestText(o, url)
      == MethodText(o.verb) + " " + TargetOf(o, url) + (if Level(o) == 1 then " HTTP/1.0" else " HTTP/1.1") + CRLF
         + (("User-Agent: WebBench 1.5\r\n")
            + (if o.proxy then "" else "Host: " + HostOf(url) + CRLF)
            + (if o.reload && o.proxy then "Pragma: no-cache\r\n" else "")
            + (if Level(o) == 2 then "Connection: close\r\n" else "")
            + CRLF)
  {
    hide MethodText, TargetOf, Level, HostOf, FindScheme;
  }

  predicate Has(h: map<string, string>, key: string, value: string) { key in h && h[key] == value }

  /** The headers of a request: User-Agent always, Host without a proxy, Pragma when a proxy is to reload, Connection
      for HTTP/1.1, and no others. */
  predicate BenchMap(o: Options, host: string, h: map<string, string>) {
    && Has(h, "User-Agent", "WebBench 1.5")
    && (if o.proxy then "Host" !in h else Has(h, "Host", host))
    && (if o.reload && o.proxy then Has(h, "Pragma", "no-cache") else "Pragma" !in h)
    && (if Level(o) > 1 then Has(h, "Connection", "close") else "Connection" !in h)
    && forall k :: k in h ==> k in ["User-Agent", "Host", "Pragma", "Connection"]
  }

  /** Round trip. Every request printed for HTTP/1.0 or 1.1 is parsed completely: same method, version and headers,
      path and query make up the target of the url (the whole url for a proxy), nothing is left unread. A request
      printed for any other level (HTTP/0.9 has no version) is refused. */
  lemma BuildRequestRoundTrip(o: Options, url: string, scheme: string, authority: string, target: string)
    requires Sendable(o, url) && Splits(url, scheme, authority, target)
    ensures var p := Run(START, RequestText(o, url));
      if Level(o) == 1 || Level(o) == 2 then
        && p.out == Ok && p.ctx.state == GotAll && p.rest == []
        && p.ctx.req.verb == (match o.verb case MGet => GET case MHead => HEAD case MOptions => OPTIONS case MTrace => TRACE)
        && p.ctx.req.version == (if Level(o) == 1 then kHttp10 else kHttp11)
        && p.ctx.req.path + p.ctx.req.query == (if o.proxy then url else target) && '?' !in p.ctx.req.path
        && BenchMap(o, authority[..Find(authority, ':')], p.ctx.req.headers)
      else p.out == Bad && p.rest == RequestText(o, url)
  {
    UrlParts(o, url, scheme, authority, target);
    if Level(o) == 1 || Level(o) == 2 {
      VersionedRoundTrip(o, url);
      BenchMapIs(o, url);
    } else {
      UnversionedRefused(o, url);
    }
    hide Run, Level, TargetOf, HostOf, Sendable, RequestText, BenchHeader, BenchKeys, BenchMap, Find;
  }

  lemma BenchMapIs(o: Options, url: string)
    requires FindScheme(url) < |url|
    ensures BenchMap(o, HostOf(url), map k | k in BenchKeys(o) :: BenchHeader(o, url, k))
  {
    hide Level, HostOf, FindScheme, BenchHeaders, BenchKeys, BenchHeader;
    BenchValues(o, url);
    KeyIn(o);
  }

  lemma KeysDiffer()
    ensures "User-Agent" != "Host" && "User-Agent" != "Pragma" && "User-Agent" != "Connection"
    ensures "Host" != "Pragma" && "Host" != "Connection" && "Pragma" != "Connection"
  {
    assert "User-Agent"[0] == 'U' && "Connection"[0] == 'C';
    assert |"User-Agent"| == |"Connection"| == 10 && |"Host"| == 4 && |"Pragma"| == 6;
  }

  lemma KeyIn(o: Options)
    ensures "User-Agent" in BenchKeys(o) && ("Host" in BenchKeys(o) <==> !o.proxy)
    ensures "Pragma" in BenchKeys(o) <==> o.reload && o.proxy
    ensures "Connection" in BenchKeys(o) <==> Level(o) > 1
    ensures forall k :: k in BenchKeys(o) ==> k in ["User-Agent", "Host", "Pragma", "Connection"]
  {
    hide Level;
    KeysDiffer();
  }

  lemma BenchValues(o: Options, url: string)
    requires FindScheme(url) < |url|
    ensures forall k :: k in BenchKeys(o) ==>
      && (k == "User-Agent" ==> BenchHeader(o, url, k) == "WebBench 1.5")
      && (k == "Host" && !o.proxy ==> BenchHeader(o, url, k) == HostOf(url))
      && (k == "Pragma" ==> BenchHeader(o, url, k) == "no-cache")
      && (k == "Connection" ==> BenchHeader(o, url, k) == "close")
  {
    hide Level, HostOf, FindScheme, BenchKeys;
    KeysDiffer();
  }

  function BenchHeader(o: Options, url: string, k: string): string
    requires FindScheme(url) < |url| && k in BenchKeys(o)
  {
    BenchHeaders(o, url)[k]
  }

  lemma VersionedRoundTrip(o: Options, url: string)
    requires Sendable(o, url) && (Level(o) == 1 || Level(o) == 2)
    ensures var p := Run(START, RequestText(o, url));
      && p.out == Ok && p.ctx.state == GotAll && p.rest == []
      && p.ctx.req.verb == MethodSent(o.verb) && p.ctx.req.version == VersionSent(Level(o))
      && p.ctx.req.path + p.ctx.req.query == TargetOf(o, url) && '?' !in p.ctx.req.path
      && p.ctx.req.headers == map k | k in BenchKeys(o) :: BenchHeader(o, url, k)
  {
    hide ArraysFit, PortText, Run, CheckUrl, TargetOf, HostOf, LinesOf, EncodeHeaders, BenchKeys, Level, ProcessLine, WithHeaders,
      HeaderLine, MethodOf, MethodText, Overlay, RequestLine;
    var line, lines := RequestLine(o, url), BenchLines(o, url);
    RequestLineClean(o, url);
    RequestLineSpells(o, url);
    SpelledLine(FRESH, line, MethodText(o.verb), TargetOf(o, url), VersionSent(Level(o)));
    FreshLine(line, MethodText(o.verb), TargetOf(o, url), VersionSent(Level(o)));
    MethodReadBack(o.verb);
    var req := ProcessLine(FRESH, line).req;
    var m := Msg(line, lines, []);
    HeadersKeepBody(req, lines);
    BenchLinesRead(o, url, req);
    EncodedRequest(o, url);
    ParseMsg(m, []);
    assert Encode(m) + [] == Encode(m);
  }

  ghost function BenchLines(o: Options, url: string): (ls: seq<string>)
    requires Sendable(o, url)
    ensures forall i :: 0 <= i < |ls| ==> HeaderLine(ls[i])
  {
    BenchPrintable(o, url);
    LinesReadBack(FRESH, BenchHeaders(o, url), BenchKeys(o));
    LinesOf(BenchHeaders(o, url), BenchKeys(o))
  }

  lemma BenchLinesRead(o: Options, url: string, req: Request)
    requires Sendable(o, url) && req.headers == map[]
    ensures WithHeaders(req, BenchLines(o, url)).headers == map k | k in BenchKeys(o) :: BenchHeader(o, url, k)
  {
    hide ArraysFit, PortText, CheckUrl, TargetOf, HostOf, LinesOf, EncodeHeaders, BenchKeys, Level, WithHeaders, HeaderLine, Overlay;
    BenchPrintable(o, url);
    LinesReadBack(req, BenchHeaders(o, url), BenchKeys(o));
    OverlayIs(req.headers, BenchHeaders(o, url), BenchKeys(o));
  }

  lemma EncodedRequest(o: Options, url: string)
    requires Sendable(o, url) && (Level(o) == 1 || Level(o) == 2)
    ensures RequestText(o, url) == Encode(Msg(RequestLine(o, url), BenchLines(o, url), []))
  {
    hide ArraysFit, PortText, CheckUrl, TargetOf, HostOf, LinesOf, EncodeHeaders, BenchKeys, Level, RequestLine, HeaderBlockText;
    BenchPrintable(o, url);
    BlockIsLines(o, url);
  }

  lemma UnversionedRefused(o: Options, url: string)
    requires Sendable(o, url) && Level(o) != 1 && Level(o) != 2
    ensures var p := Run(START, RequestText(o, url));
      p.out == Bad && p.rest == RequestText(o, url)
  {
    hide ArraysFit, PortText, CheckUrl, TargetOf, HostOf, MethodOf, HeaderBlockText, MethodText, Level;
    var line, s := RequestLine(o, url), RequestText(o, url);
    MethodReadBack(o.verb);
    RequestLineClean(o, url);
    SearchLine(line, HeaderBlockText(o, url));
    assert s[..|line|] == line;
    FindSpace(MethodText(o.verb), TargetOf(o, url), line);
    assert !ProcessLine(FRESH, line).ok;
  }
}
