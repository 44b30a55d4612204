/** http/HttpResponse.h, http/HttpResponse.cc: the response printer, and what the header parser makes of it. */
module HttpResponses {
  import opened Wrappers
  import opened Text
  import opened Buffers
  import opened HttpRequests
  import opened HttpContexts
  import opened ChunkSplits
  import opened Framing

  // ---- the order of std::map<std::string, ...> ----

  predicate StrLe(a: string, b: string) {
    a == [] || (b != [] && (a[0] < b[0] || (a[0] == b[0] && StrLe(a[1..], b[1..]))))
  }

  lemma {:induction false} StrLeTotal(a: string, b: string)
    ensures StrLe(a, b) || StrLe(b, a)
    ensures StrLe(a, b) && StrLe(b, a) ==> a == b
  {
    if a != [] && b != [] && a[0] == b[0] {
      StrLeTotal(a[1..], b[1..]);
      assert a == [a[0]] + a[1..] && b == [b[0]] + b[1..];
    }
  }

  lemma {:induction false} StrLeTransitive(a: string, b: string, c: string)
    requires StrLe(a, b) && StrLe(b, c)
    ensures StrLe(a, c)
  {
    if a != [] && a[0] == b[0] == c[0] {
      StrLeTransitive(a[1..], b[1..], c[1..]);
    }
  }

  predicate Least(k: string, s: set<string>) {
    k in s && forall j :: j in s ==> StrLe(k, j)
  }

  lemma {:induction false} LeastExists(s: set<string>)
    requires s != {}
    ensures exists k :: Least(k, s)
  {
    var x :| x in s;
    var rest := s - {x};
    if rest == {} {
      StrLeTotal(x, x);
      assert s == {x} && Least(x, s);
    } else {
      LeastExists(rest);
      var k :| Least(k, rest);
      StrLeTotal(x, k);
      StrLeTotal(x, x);
      var least := if StrLe(k, x) then k else x;
      forall j | j in s ensures StrLe(least, j) {
        if j != x && least == x {
          StrLeTransitive(x, k, j);
        }
      }
      assert Least(least, s);
    }
  }

  lemma LeastUnique(k: string, j: string, s: set<string>)
    requires Least(k, s) && Least(j, s)
    ensures k == j
  {
    StrLeTotal(k, j);
  }

  /** The keys in the order the map is traversed. */
  ghost function SortedKeys(s: set<string>): (ks: seq<string>)
    ensures forall k :: k in ks <==> k in s
  {
    if s == {} then []
    else
      LeastExists(s);
      var k :| Least(k, s);
      [k] + SortedKeys(s - {k})
  }

  // ---- the printed text ----

  function HeaderText(key: string, value: string): string {
    key + ": " + value
  }

  function LinesOf(headers: map<string, string>, keys: seq<string>): (ls: seq<string>)
    requires forall k :: k in keys ==> k in headers
    ensures |ls| == |keys| && forall i :: 0 <= i < |keys| ==> ls[i] == HeaderText(keys[i], headers[keys[i]])
  {
    if keys == [] then [] else [HeaderText(keys[0], headers[keys[0]])] + LinesOf(headers, keys[1..])
  }

  /** The decimals of a length below this fit behind "Content-Length: " into 31 characters. */
  const MAX_BODY: nat := 10_000_000_000_000

  /** snprintf into a buffer of 32 bytes. */
  function Snprintf32(s: string): string {
    if |s| <= 31 then s else s[..31]
  }

  function LengthText(body: string): string {
    Snprintf32("Content-Length: " + Decimal(|body|) + CRLF)
  }

  function CloseText(): string { "Connection: close\r\n" }

  function KeepAliveText(): string { "Connection: Keep-Alive\r\n" }

  /** The header lines printed in front of the stored headers. */
  function GeneratedText(close: bool, body: string): string {
    if close then CloseText() else LengthText(body) + KeepAliveText()
  }

  datatype Response = Response(code: nat, message: string, close: bool, headers: map<string, string>, body: string)

  function StatusLine(r: Response): string {
    Snprintf32("HTTP/1.1 " + Decimal(r.code) + " ") + r.message + CRLF
  }

  /** The stored headers with the given keys, in map order. */
  ghost function HeadersText(headers: map<string, string>, todo: set<string>): string
    requires todo <= headers.Keys
  {
    EncodeHeaders(LinesOf(headers, SortedKeys(todo)))
  }

  /** Everything after the status line. */
  ghost function AfterStatus(r: Response): string {
    GeneratedText(r.close, r.body) + HeadersText(r.headers, r.headers.Keys) + CRLF + r.body
  }

  class HttpResponse {
    var headers_: map<string, string>
    var statusCode_: nat
    var statusMessage_: string
    var closeConnection_: bool
    var body_: string

    ghost function Abs(): Response
      reads this
    {
      Response(statusCode_, statusMessage_, closeConnection_, headers_, body_)
    }

    constructor (close: bool)
      ensures Abs() == Response(0, [], close, map[], [])
    {
      statusCode_, closeConnection_ := 0, close;
      headers_, statusMessage_, body_ := map[], [], [];
    }

    method AddHeader(key: string, value: string)
      modifies this`headers_
      ensures Abs() == old(Abs()).(headers := old(headers_)[key := value])
    {
      headers_ := headers_[key := value];
    }

    /** Appending to a buffer that is read from index 0 keeps its bytes. */
    static method Put(output: Buffer, s: string)
      requires output.Valid() && output.buffer_.Length > 0 && output.readIndex_ == 0
      modifies output, output.buffer_
      ensures output.Valid() && output.readIndex_ == 0 && output.buffer_.Length > 0
      ensures output.buffer_ == old(output.buffer_) || fresh(output.buffer_)
      ensures output.Contents() == old(output.Contents()) + s
    {
      output.Append(s);
      assert AppendSafe(old(output.Abs()), |s|);
      assert output.Abs().r == 0;
    }

    /** Prints the response. The caller's buffer is a new one, read from index 0, so growing keeps its bytes. */
    method AppendToBuffer(output: Buffer)
      requires output.Valid() && output.buffer_.Length > 0 && output.readIndex_ == 0
      modifies output, output.buffer_
      ensures output.Valid() && output.readIndex_ == 0
      ensures output.Contents() == old(output.Contents()) + StatusLine(Abs()) + AfterStatus(Abs())
    {
      hide StatusLine, AfterStatus;
      AppendStatus(output);
      AppendAfterStatus(output);
    }

    method AppendAfterStatus(output: Buffer)
      requires output.Valid() && output.buffer_.Length > 0 && output.readIndex_ == 0
      modifies output, output.buffer_
      ensures output.Valid() && output.readIndex_ == 0
      ensures output.Contents() == old(output.Contents()) + AfterStatus(Abs())
    {
      hide GeneratedText, HeadersText, AfterStatus;
      AfterStatusParts(output.Contents(), Abs());
      AppendGenerated(output);
      AppendHeaders(output);
      AppendEnd(output);
    }

    method AppendEnd(output: Buffer)
      requires output.Valid() && output.buffer_.Length > 0 && output.readIndex_ == 0
      modifies output, output.buffer_
      ensures output.Valid() && output.readIndex_ == 0
      ensures output.Contents() == old(output.Contents()) + (CRLF + body_)
    {
      Put(output, CRLF);
      Put(output, body_);
    }

    method PutHeader(output: Buffer, key: string, value: string)
      requires output.Valid() && output.buffer_.Length > 0 && output.readIndex_ == 0
      modifies output, output.buffer_
      ensures output.Valid() && output.readIndex_ == 0 && output.buffer_.Length > 0
      ensures output.buffer_ == old(output.buffer_) || fresh(output.buffer_)
      ensures output.Contents() == old(output.Contents()) + (HeaderText(key, value) + CRLF)
    {
      Put(output, key);
      Put(output, ": ");
      assert output.Contents() == old(output.Contents()) + (key + ": ");
      Put(output, value);
      Put(output, CRLF);
      assert HeaderText(key, value) + CRLF == key + ": " + (value + CRLF);
    }

    method AppendStatus(output: Buffer)
      requires output.Valid() && output.buffer_.Length > 0 && output.readIndex_ == 0
      modifies output, output.buffer_
      ensures output.Valid() && output.readIndex_ == 0 && output.buffer_.Length > 0
      ensures output.buffer_ == old(output.buffer_) || fresh(output.buffer_)
      ensures output.Contents() == old(output.Contents()) + StatusLine(Abs())
    {
      hide Decimal, Snprintf32;
      Put(output, Snprintf32("HTTP/1.1 " + Decimal(statusCode_) + " "));
      Put(output, statusMessage_);
      Put(output, CRLF);
    }

    method AppendGenerated(output: Buffer)
      requires output.Valid() && output.buffer_.Length > 0 && output.readIndex_ == 0
      modifies output, output.buffer_
      ensures output.Valid() && output.readIndex_ == 0 && output.buffer_.Length > 0
      ensures output.buffer_ == old(output.buffer_) || fresh(output.buffer_)
      ensures output.Contents() == old(output.Contents()) + GeneratedText(closeConnection_, body_)
    {
      hide LengthText, CloseText, KeepAliveText;
      if closeConnection_ {
        Put(output, CloseText());
      } else {
        Put(output, LengthText(body_));
        Put(output, KeepAliveText());
      }
    }

    method AppendHeaders(output: Buffer)
      requires output.Valid() && output.buffer_.Length > 0 && output.readIndex_ == 0
      modifies output, output.buffer_
      ensures output.Valid() && output.readIndex_ == 0 && output.buffer_.Length > 0
      ensures output.buffer_ == old(output.buffer_) || fresh(output.buffer_)
      ensures output.Contents() == old(output.Contents()) + HeadersText(headers_, headers_.Keys)
    {
      hide HeadersText, HeaderText, Least;
      ghost var goal := output.Contents() + HeadersText(headers_, headers_.Keys);
      var todo := headers_.Keys;
      while todo != {}
        invariant output.Valid() && output.readIndex_ == 0 && output.buffer_.Length > 0
        invariant output.buffer_ == old(output.buffer_) || fresh(output.buffer_)
        invariant todo <= headers_.Keys
        invariant output.Contents() + HeadersText(headers_, todo) == goal
        decreases |todo|
      {
        LeastExists(todo);
        var key: string :| Least(key, todo);
        FirstLine(headers_, todo, key);
        PutHeader(output, key, headers_[key]);
        todo := todo - {key};
      }
      EmptyHeaders(headers_);
    }
  }

  lemma AfterStatusParts(before: string, r: Response)
    ensures before + GeneratedText(r.close, r.body) + HeadersText(r.headers, r.headers.Keys) + (CRLF + r.body)
      == before + AfterStatus(r)
  {
    hide GeneratedText, HeadersText;
  }

  lemma EmptyHeaders(headers: map<string, string>)
    ensures HeadersText(headers, {}) == []
  {
  }

  lemma FirstLine(headers: map<string, string>, todo: set<string>, key: string)
    requires todo <= headers.Keys && Least(key, todo)
    ensures key in todo
    ensures HeadersText(headers, todo)
      == (HeaderText(key, headers[key]) + CRLF) + HeadersText(headers, todo - {key})
  {
    var ks := SortedKeys(todo);
    LeastUnique(key, ks[0], todo);
    assert ks == [key] + SortedKeys(todo - {key});
    var ls := LinesOf(headers, ks);
    assert ls == [HeaderText(key, headers[key])] + LinesOf(headers, SortedKeys(todo - {key}));
  }

  lemma FirstKey(s: set<string>) returns (k: string, rest: seq<string>)
    requires s != {}
    ensures Least(k, s) && rest == SortedKeys(s - {k}) && SortedKeys(s) == [k] + rest
    ensures forall j :: j in rest ==> j != k && StrLe(k, j)
  {
    LeastExists(s);
    k := SortedKeys(s)[0];
    rest := SortedKeys(s - {k});
    assert forall j :: j in rest ==> j in s - {k};
  }

  ghost predicate Ascending(ks: seq<string>) {
    forall i, j :: 0 <= i < j < |ks| ==> ks[i] != ks[j] && StrLe(ks[i], ks[j])
  }

  /** The keys are printed once each, in ascending order. */
  lemma {:induction false} SortedKeysSorted(s: set<string>)
    ensures Ascending(SortedKeys(s))
    decreases |s|
  {
    if s != {} {
      var k, rest := FirstKey(s);
      SortedKeysSorted(s - {k});
      hide SortedKeys, Least, StrLe, Ascending;
      AscendingFrom(k, rest);
    }
  }

  lemma AscendingFrom(k: string, rest: seq<string>)
    requires Ascending(rest) && forall j :: j in rest ==> j != k && StrLe(k, j)
    ensures Ascending([k] + rest)
  {
    hide StrLe;
    var ks := [k] + rest;
    forall i, j | 0 <= i < j < |ks| ensures ks[i] != ks[j] && StrLe(ks[i], ks[j]) {
      assert ks[j] == rest[j - 1] && rest[j - 1] in rest;
      if i > 0 {
        assert ks[i] == rest[i - 1];
      }
    }
  }

  /** The status line. What is printed, cut at its first CRLF, is the version, the decimals of the code, and the
      message; what follows that CRLF is the text ResponseRoundTrip reads back. */
  lemma StatusLineReadBack(r: Response) returns (d: string)
    requires r.code < Pow10(21) && NoCRLF(r.message)
    ensures AllDigits(d) && d != [] && DigitsValue(d) == r.code
    ensures var s := StatusLine(r) + AfterStatus(r);
      var i := SearchCRLF(s);
      i + 2 <= |s| && s[..i] == "HTTP/1.1 " + d + " " + r.message && s[i + 2..] == AfterStatus(r)
  {
    d := Decimal(r.code);
    DecimalValue(r.code);
    DecimalLength(r.code, 21);
    hide AfterStatus, Decimal, DigitsValue, Pow10;
    var line := "HTTP/1.1 " + d + " " + r.message;
    assert StatusLine(r) == line + CRLF;
    StatusLineClean(d, r.message);
    SearchLine(line, AfterStatus(r));
    assert (line + CRLF + AfterStatus(r))[|line| + 2..] == AfterStatus(r);
  }

  lemma StatusLineClean(d: string, message: string)
    requires AllDigits(d) && NoCRLF(message)
    ensures NoCRLF("HTTP/1.1 " + d + " " + message)
  {
    assert NoCRLF("HTTP/1.1 ") && NoCRLF(" ");
    assert NoCRLF(d);
    NoCRLFJoin("HTTP/1.1 ", d);
    NoCRLFJoin("HTTP/1.1 " + d, " ");
    NoCRLFJoin("HTTP/1.1 " + d + " ", message);
  }

  /** The bytes after the status line of a response with one stored header. */
  lemma OneHeaderBytes(r: Response, key: string, value: string)
    requires r.headers == map[key := value] && |r.body| < MAX_BODY
    ensures AfterStatus(r)
      == (if r.close then "Connection: close\r\n"
          else "Content-Length: " + Decimal(|r.body|) + CRLF + "Connection: Keep-Alive\r\n")
         + (key + ": " + value + CRLF) + CRLF + r.body
  {
    LengthFits(r.body);
    OneHeaderText(r.headers, key, value);
    hide Decimal, LengthText, HeadersText;
  }

  lemma OneHeaderText(headers: map<string, string>, key: string, value: string)
    requires headers == map[key := value]
    ensures HeadersText(headers, headers.Keys) == key + ": " + value + CRLF
  {
    StrLeTotal(key, key);
    assert headers.Keys == {key} && Least(key, {key}) && headers.Keys - {key} == {};
    FirstLine(headers, headers.Keys, key);
    EmptyHeaders(headers);
  }

  // ---- reading the printed headers back ----

  /** A header the parser can read back: no ':' or CRLF in the key, no CRLF in the value, no white space around it. */
  ghost predicate Printable(key: string, value: string) {
    ':' !in key && NoCRLF(key) && NoCRLF(value) && Trimmed(value)
  }

  ghost predicate AllPrintable(headers: map<string, string>) {
    forall k :: k in headers ==> Printable(k, headers[k])
  }

  lemma PrintedLine(key: string, value: string)
    requires Printable(key, value)
    ensures HeaderLine(HeaderText(key, value))
    ensures FieldOf(HeaderText(key, value)) == key && ValueOf(HeaderText(key, value)) == value
  {
    HeaderReadBack(key, value);
    assert NoCRLF(": ");
    NoCRLFJoin(key, ": ");
    NoCRLFJoin(key + ": ", value);
    SearchNone(HeaderText(key, value));
  }

  function Overlay(base: map<string, string>, headers: map<string, string>, keys: seq<string>): map<string, string>
    requires forall k :: k in keys ==> k in headers
    decreases |keys|
  {
    if keys == [] then base else Overlay(base[keys[0] := headers[keys[0]]], headers, keys[1..])
  }

  lemma {:induction false} OverlayIs(base: map<string, string>, headers: map<string, string>, keys: seq<string>)
    requires forall k :: k in keys ==> k in headers
    ensures Overlay(base, headers, keys) == base + (map k | k in keys :: headers[k])
    decreases |keys|
  {
    if keys != [] {
      OverlayIs(base[keys[0] := headers[keys[0]]], headers, keys[1..]);
    }
  }

  /** Printed lines are read back as their keys and values, later ones overriding. */
  lemma {:induction false} LinesReadBack(req: Request, headers: map<string, string>, keys: seq<string>)
    requires AllPrintable(headers) && forall k :: k in keys ==> k in headers
    ensures forall i :: 0 <= i < |keys| ==> HeaderLine(LinesOf(headers, keys)[i])
    ensures WithHeaders(req, LinesOf(headers, keys)) == req.(headers := Overlay(req.headers, headers, keys))
    decreases |keys|
  {
    hide HeaderText, FieldOf, ValueOf, HeaderLine;
    forall i | 0 <= i < |keys| ensures HeaderLine(LinesOf(headers, keys)[i]) {
      PrintedLine(keys[i], headers[keys[i]]);
    }
    if keys != [] {
      var key := keys[0];
      PrintedLine(key, headers[key]);
      HeaderLineColon(HeaderText(key, headers[key]));
      var req1 := WithHeader(req, HeaderText(key, headers[key]));
      LinesReadBack(req1, headers, keys[1..]);
      assert LinesOf(headers, keys)[1..] == LinesOf(headers, keys[1..]);
    }
  }

  lemma HeaderLineColon(h: string)
    requires HeaderLine(h)
    ensures ':' in h
  {
  }

  function Generated(close: bool, body: string): map<string, string> {
    if close then map["Connection" := "close"]
    else map["Content-Length" := Decimal(|body|), "Connection" := "Keep-Alive"]
  }

  function GeneratedKeys(close: bool): seq<string> {
    if close then ["Connection"] else ["Content-Length", "Connection"]
  }

  lemma LengthFits(body: string)
    requires |body| < MAX_BODY
    ensures LengthText(body) == "Content-Length: " + Decimal(|body|) + CRLF
  {
    assert Pow10(13) == MAX_BODY;
    DecimalLength(|body|, 13);
  }

  lemma GeneratedPrintable(close: bool, body: string)
    ensures AllPrintable(Generated(close, body))
    ensures forall k :: k in GeneratedKeys(close) <==> k in Generated(close, body)
  {
    hide Decimal;
    DecimalTrimmed(|body|);
    assert NoCRLF("Connection") && NoCRLF("Content-Length") && NoCRLF("close") && NoCRLF("Keep-Alive");
  }

  lemma GeneratedLines(close: bool, body: string)
    requires close || |body| < MAX_BODY
    ensures GeneratedText(close, body) == EncodeHeaders(LinesOf(Generated(close, body), GeneratedKeys(close)))
  {
    if !close {
      LengthFits(body);
    }
    hide Decimal, LengthText;
    var ls := LinesOf(Generated(close, body), GeneratedKeys(close));
    if close {
      assert ls == [HeaderText("Connection", "close")];
      OneLine(ls[0]);
      assert HeaderText("Connection", "close") + CRLF == "Connection: close\r\n";
    } else {
      assert ls == [HeaderText("Content-Length", Decimal(|body|))] + [HeaderText("Connection", "Keep-Alive")];
      EncodeHeadersJoin([ls[0]], [ls[1]]);
      OneLine(ls[0]);
      OneLine(ls[1]);
      assert "Content-Length: " == "Content-Length" + ": ";
      assert HeaderText("Connection", "Keep-Alive") + CRLF == "Connection: Keep-Alive\r\n";
    }
  }

  lemma OneLine(h: string)
    ensures EncodeHeaders([h]) == h + CRLF
  {
    assert [h][1..] == [];
  }

  lemma {:induction false} EncodeHeadersJoin(a: seq<string>, b: seq<string>)
    ensures EncodeHeaders(a + b) == EncodeHeaders(a) + EncodeHeaders(b)
    decreases |a|
  {
    if a == [] {
      assert a + b == b;
    } else {
      EncodeHeadersJoin(a[1..], b);
      assert (a + b)[1..] == a[1..] + b;
    }
  }

  lemma {:induction false} WithHeadersJoin(req: Request, a: seq<string>, b: seq<string>)
    requires forall i :: 0 <= i < |a| ==> HeaderLine(a[i])
    requires forall i :: 0 <= i < |b| ==> HeaderLine(b[i])
    ensures WithHeaders(req, a + b) == WithHeaders(WithHeaders(req, a), b)
    decreases |a|
  {
    hide WithHeader;
    if a == [] {
      assert a + b == b;
    } else {
      WithHeadersJoin(WithHeader(req, a[0]), a[1..], b);
      assert (a + b)[1..] == a[1..] + b;
    }
  }

  /** The generated and the stored lines, one header block. */
  lemma HeaderBlock(r: Response, req: Request) returns (lines: seq<string>)
    requires AllPrintable(r.headers) && (r.close || |r.body| < MAX_BODY)
    ensures AfterStatus(r) == EncodeHeaders(lines) + [] + CRLF + r.body
    ensures forall i :: 0 <= i < |lines| ==> HeaderLine(lines[i])
    ensures WithHeaders(req, lines)
      == req.(headers := req.headers + Generated(r.close, r.body) + r.headers)
  {
    hide GeneratedText, Generated, SortedKeys, LinesOf, EncodeHeaders, WithHeaders, HeaderLine, Overlay, AllPrintable,
      HeaderText, GeneratedKeys;
    var g, gks, ks := Generated(r.close, r.body), GeneratedKeys(r.close), SortedKeys(r.headers.Keys);
    GeneratedPrintable(r.close, r.body);
    GeneratedLines(r.close, r.body);
    var a, b := LinesOf(g, gks), LinesOf(r.headers, ks);
    LinesReadBack(req, g, gks);
    OverlayIs(req.headers, g, gks);
    var req1 := req.(headers := req.headers + g);
    assert (map k | k in gks :: g[k]) == g;
    LinesReadBack(req1, r.headers, ks);
    OverlayIs(req1.headers, r.headers, ks);
    assert (map k | k in ks :: r.headers[k]) == r.headers;
    WithHeadersJoin(req, a, b);
    EncodeHeadersJoin(a, b);
    lines := a + b;
  }

  /** Round trip. Run on what follows the status line, the header loop records the stored headers laid over the
      generated ones, whatever the order of printing, and leaves exactly the body unread. */
  lemma ResponseRoundTrip(r: Response, req: Request)
    requires AllPrintable(r.headers) && (r.close || |r.body| < MAX_BODY) && req.verb != POST
    ensures var generated := if r.close then map["Connection" := "close"]
                             else map["Content-Length" := Decimal(|r.body|), "Connection" := "Keep-Alive"];
      Run(Ctx(ExpectHeaders, req), AfterStatus(r))
        == Result(Ctx(GotAll, req.(headers := req.headers + generated + r.headers)), r.body, Ok)
  {
    assert Generated(r.close, r.body) == if r.close then map["Connection" := "close"]
                                         else map["Content-Length" := Decimal(|r.body|), "Connection" := "Keep-Alive"];
    hide Run, HeadRun, AfterStatus, Generated, AllPrintable, EncodeHeaders, WithHeaders, HeaderLine;
    var lines := HeaderBlock(r, req);
    HeadersRun(req, lines, [], r.body);
    RunIsHeadThenBody(Ctx(ExpectHeaders, req), AfterStatus(r));
  }

  /** Unless a stored header overrides it, a kept-alive response declares exactly the length of what is unread; stoi
      throws when that is no int. */
  lemma DeclaredLength(r: Response, req: Request)
    requires AllPrintable(r.headers) && (r.close || |r.body| < MAX_BODY) && req.verb != POST
    requires !r.close && "Content-Length" !in r.headers
    ensures var p := Run(Ctx(ExpectHeaders, req), AfterStatus(r));
      Stoi(Header(p.ctx.req, "Content-Length")) == if |p.rest| <= INT_MAX then Some(|p.rest|) else None
  {
    hide Run;
    ResponseRoundTrip(r, req);
    StoiDecimal(|r.body|);
    var g := Generated(r.close, r.body);
    assert "Content-Length" in g && g["Content-Length"] == Decimal(|r.body|);
  }
}
