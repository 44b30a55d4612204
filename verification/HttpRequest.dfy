/** http/HttpRequest.h: the parsed request. */
module HttpRequests {
  import opened Text

  datatype Method = GET | POST | HEAD | PUT | DELETE | TRACE | OPTIONS | CONNECT | PATH
  datatype Version = kUnknown | kHttp10 | kHttp11

  /** The value of a request object. */
  datatype Request = Request(verb: Method, version: Version, path: string, query: string,
                             headers: map<string, string>, body: string)

  const FRESH: Request := Request(GET, kHttp11, [], [], map[], [])

  /** The method a token selects. Every token selects one: an unknown token selects PATH, and so does "CONNECT",
      because the source compares with the misspelt "CONNET". */
  function MethodOf(token: string): Method {
    if token == "GET" then GET
    else if token == "POST" then POST
    else if token == "HEAD" then HEAD
    else if token == "PUT" then PUT
    else if token == "DELETE" then DELETE
    else if token == "TRACE" then TRACE
    else if token == "OPTIONS" then OPTIONS
    else if token == "CONNET" then CONNECT
    else PATH
  }

  function MethodString(m: Method): string {
    match m
    case GET => "GET"
    case POST => "POST"
    case HEAD => "HEAD"
    case PUT => "PUT"
    case DELETE => "DELETE"
    case TRACE => "TRACE"
    case OPTIONS => "OPTIONS"
    case CONNECT => "CONNECT"
    case PATH => "PATH"
  }

  /** Printing a method and reading it back gives the method, except for CONNECT. */
  lemma MethodRoundTrip(m: Method)
    ensures MethodOf(MethodString(m)) == m <==> m != CONNECT
    ensures MethodOf(MethodString(CONNECT)) == PATH
  {
    assert MethodString(CONNECT)[5] == 'C';
    assert "CONNET"[5] == 'T';
  }

  /** Each method other than PATH is selected by one token only, its printed name, or "CONNET" for CONNECT; so every
      other token, such as PATCH, selects PATH. */
  lemma MethodExact(token: string, m: Method)
    requires m != PATH
    ensures MethodOf(token) == m <==> token == if m == CONNECT then "CONNET" else MethodString(m)
  {
    assert |"GET"| == |"PUT"| == 3 && "GET"[0] != "PUT"[0] && "POST"[0] != "HEAD"[0];
    assert "DELETE"[0] != "CONNET"[0] && |"TRACE"| == 5 && |"OPTIONS"| == 7;
  }

  /** The field and the value a header line denotes, colon being the offset of its first ':'. */
  function FieldOf(line: string): string
    requires ':' in line
  {
    line[..Find(line, ':')]
  }

  function ValueOf(line: string): string
    requires ':' in line
  {
    var colon := Find(line, ':');
    Trim(line[colon + 1..])
  }

  function WithHeader(req: Request, line: string): Request
    requires ':' in line
  {
    req.(headers := req.headers[FieldOf(line) := ValueOf(line)])
  }

  /** Any header line: the field is what precedes the first ':', the value what follows it without the white space
      around it, if there is any. */
  lemma HeaderLineIs(key: string, pre: string, value: string, post: string)
    requires ':' !in key && AllSpace(pre) && Trimmed(value) && AllSpace(post)
    ensures var line := key + ":" + (pre + value + post);
      ':' in line && FieldOf(line) == key && ValueOf(line) == value
  {
    var v := pre + value + post;
    var line := key + ":" + v;
    assert line[|key|] == ':';
    assert line[..|key|] == key;
    FindIs(line, ':', |key|);
    assert line[|key| + 1..] == v;
    TrimIs(pre, value, post);
  }

  /** A header printed as "key: value" is read back as that key and that value. */
  lemma HeaderReadBack(key: string, value: string)
    requires ':' !in key && Trimmed(value)
    ensures ':' in key + ": " + value
    ensures FieldOf(key + ": " + value) == key && ValueOf(key + ": " + value) == value
  {
    HeaderLineIs(key, " ", value, "");
    assert key + ": " + value == key + ":" + (" " + value + "");
  }

  class HttpRequest {
    var headers_: map<string, string>
    var path_: string
    var query_: string
    var body_: string
    var method_: Method
    var version_: Version

    ghost function Abs(): Request
      reads this
    {
      Request(method_, version_, path_, query_, headers_, body_)
    }

    constructor ()
      ensures Abs() == FRESH
    {
      method_, version_ := GET, kHttp11;
      headers_, path_, query_, body_ := map[], [], [], [];
    }

    method SetVersion(v: Version)
      modifies this`version_
      ensures Abs() == old(Abs()).(version := v)
    {
      version_ := v;
    }

    method SetMethod(token: string) returns (succeed: bool)
      modifies this`method_
      ensures succeed && Abs() == old(Abs()).(verb := MethodOf(token))
    {
      succeed := false;
      if token == "GET" {
        method_, succeed := GET, true;
      } else if token == "POST" {
        method_, succeed := POST, true;
      } else if token == "HEAD" {
        method_, succeed := HEAD, true;
      } else if token == "PUT" {
        method_, succeed := PUT, true;
      } else if token == "DELETE" {
        method_, succeed := DELETE, true;
      } else if token == "TRACE" {
        method_, succeed := TRACE, true;
      } else if token == "OPTIONS" {
        method_, succeed := OPTIONS, true;
      } else if token == "CONNET" {
        method_, succeed := CONNECT, true;
      } else {
        method_, succeed := PATH, true;
      }
    }

    method SetPath(s: string)
      modifies this`path_
      ensures Abs() == old(Abs()).(path := s)
    {
      path_ := s;
    }

    method SetQuery(s: string)
      modifies this`query_
      ensures Abs() == old(Abs()).(query := s)
    {
      query_ := s;
    }

    /** Records the header of a line whose first ':' is at the given offset. */
    method AddHeader(line: string, colon: nat)
      requires ':' in line && colon == Find(line, ':')
      modifies this`headers_
      ensures Abs() == WithHeader(old(Abs()), line)
    {
      var field := line[..colon];
      var i := colon + 1;
      while i < |line| && IsSpace(line[i])
        invariant i <= |line|
        invariant TrimLeft(line[i..]) == TrimLeft(line[colon + 1..])
      {
        assert line[i..][1..] == line[i + 1..];
        i := i + 1;
      }
      var value := line[i..];
      assert TrimLeft(value) == value;
      while value != [] && IsSpace(value[|value| - 1])
        invariant TrimRight(value) == ValueOf(line)
        decreases |value|
      {
        value := value[..|value| - 1];
      }
      headers_ := headers_[field := value];
    }

    method AppendBody(s: string)
      modifies this`body_
      ensures Abs() == old(Abs()).(body := old(body_) + s)
    {
      body_ := body_ + s;
    }

    /** The value of a field, or the empty string. */
    function GetHeader(field: string): string
      reads this`headers_
    {
      if field in headers_ then headers_[field] else []
    }

    method Swap(that: HttpRequest)
      modifies this, that
      ensures Abs() == old(that.Abs()) && that.Abs() == old(Abs())
    {
      method_, that.method_ := that.method_, method_;
      version_, that.version_ := that.version_, version_;
      path_, that.path_ := that.path_, path_;
      query_, that.query_ := that.query_, query_;
      headers_, that.headers_ := that.headers_, headers_;
      body_, that.body_ := that.body_, body_;
    }
  }
}
