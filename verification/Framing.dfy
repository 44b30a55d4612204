/** The grammar of the byte streams parseRequest accepts, and the framing of back-to-back requests. */
module Framing {
  import opened Wrappers
  import opened Text
  import opened HttpRequests
  import opened HttpContexts
  import opened RequestLines
  import opened ChunkSplits

  /** A message head as the code delimits it: a request line, header lines holding a ':', and the first line
      without one, which the code takes for the empty line. */
  datatype Msg = Msg(line: string, headers: seq<string>, blank: string)

  predicate HeaderLine(h: string) { SearchCRLF(h) == |h| && ':' in h }

  ghost predicate ValidMsg(m: Msg) {
    && NoCRLF(m.line) && ProcessLine(FRESH, m.line).ok
    && (forall i :: 0 <= i < |m.headers| ==> HeaderLine(m.headers[i]))
    && NoCRLF(m.blank) && ':' !in m.blank
  }

  function EncodeHeaders(hs: seq<string>): string {
    if hs == [] then [] else hs[0] + CRLF + EncodeHeaders(hs[1..])
  }

  function Encode(m: Msg): string {
    m.line + CRLF + EncodeHeaders(m.headers) + m.blank + CRLF
  }

  /** Header lines override one another in the order they come. */
  function WithHeaders(req: Request, hs: seq<string>): Request
    requires forall i :: 0 <= i < |hs| ==> HeaderLine(hs[i])
    decreases |hs|
  {
    if hs == [] then req
    else
      assert HeaderLine(hs[0]);
      WithHeaders(WithHeader(req, hs[0]), hs[1..])
  }

  function RequestOf(m: Msg): Request
    requires forall i :: 0 <= i < |m.headers| ==> HeaderLine(m.headers[i])
  {
    WithHeaders(ProcessLine(FRESH, m.line).req, m.headers)
  }

  function EndOfHeaders(req: Request): ParseState {
    if req.verb == POST then ExpectBody else GotAll
  }

  // ---- soundness: an encoded message is parsed into its request ----

  lemma HeaderStep(req: Request, h: string, t: string)
    requires HeaderLine(h)
    ensures Step(Ctx(ExpectHeaders, req), h + CRLF + t) == More(Ctx(ExpectHeaders, WithHeader(req, h)), t)
  {
    hide WithHeader;
    SearchNone(h);
    SearchLine(h, t);
    var s := h + CRLF + t;
    assert s[..|h|] == h && s[|h| + 2..] == t;
  }

  lemma BlankStep(req: Request, blank: string, t: string)
    requires NoCRLF(blank) && ':' !in blank
    ensures Step(Ctx(ExpectHeaders, req), blank + CRLF + t) == More(Ctx(EndOfHeaders(req), req), t)
  {
    hide WithHeader;
    SearchLine(blank, t);
    var s := blank + CRLF + t;
    assert s[..|blank|] == blank && s[|blank| + 2..] == t;
  }

  lemma LineStep(line: string, t: string)
    requires NoCRLF(line) && ProcessLine(FRESH, line).ok
    ensures Step(START, line + CRLF + t) == More(Ctx(ExpectHeaders, ProcessLine(FRESH, line).req), t)
  {
    hide ProcessLine;
    SearchLine(line, t);
    var s := line + CRLF + t;
    assert s[..|line|] == line && s[|line| + 2..] == t;
  }

  /** The header block, then the line that ends it. */
  lemma {:induction false} HeadersRun(req: Request, hs: seq<string>, blank: string, t: string)
    requires forall i :: 0 <= i < |hs| ==> HeaderLine(hs[i])
    requires NoCRLF(blank) && ':' !in blank
    ensures var req' := WithHeaders(req, hs);
      HeadRun(Ctx(ExpectHeaders, req), EncodeHeaders(hs) + blank + CRLF + t)
        == Result(Ctx(EndOfHeaders(req'), req'), t, Ok)
    decreases |hs|
  {
    hide Step, HeadRun, WithHeader;
    var c, s := Ctx(ExpectHeaders, req), EncodeHeaders(hs) + blank + CRLF + t;
    HeadUnfold(c, s);
    if hs == [] {
      BlankStep(req, blank, t);
      assert s == blank + CRLF + t;
      HeadUnfold(Ctx(EndOfHeaders(req), req), t);
    } else {
      var rest := EncodeHeaders(hs[1..]) + blank + CRLF + t;
      assert s == hs[0] + CRLF + rest;
      HeaderStep(req, hs[0], rest);
      HeadersRun(WithHeader(req, hs[0]), hs[1..], blank, t);
    }
  }

  /** A valid message followed by anything is parsed into its request; exactly the tail is left. */
  lemma HeadOfMsg(m: Msg, tail: string)
    requires ValidMsg(m)
    ensures HeadRun(START, Encode(m) + tail)
      == Result(Ctx(EndOfHeaders(RequestOf(m)), RequestOf(m)), tail, Ok)
  {
    hide Step, HeadRun, ProcessLine;
    var s := Encode(m) + tail;
    var rest := EncodeHeaders(m.headers) + m.blank + CRLF + tail;
    assert s == m.line + CRLF + rest;
    LineStep(m.line, rest);
    HeadUnfold(START, s);
    HeadersRun(ProcessLine(FRESH, m.line).req, m.headers, m.blank, tail);
  }

  lemma ParseMsg(m: Msg, tail: string)
    requires ValidMsg(m) && RequestOf(m).verb != POST
    ensures Run(START, Encode(m) + tail) == Result(Ctx(GotAll, RequestOf(m)), tail, Ok)
  {
    hide HeadRun, Run, ProcessLine;
    HeadOfMsg(m, tail);
    RunIsHeadThenBody(START, Encode(m) + tail);
  }

  // ---- completeness: whatever is parsed was an encoded message ----

  /** The head run in front of a header line, of the line that ends the headers, or of an incomplete line. */
  lemma HeaderCases(req: Request, s: string)
    ensures var r, i := HeadRun(Ctx(ExpectHeaders, req), s), SearchCRLF(s);
      && (i == |s| ==> LineState(r.ctx.state))
      && (i < |s| ==> i + 2 <= |s|)
      && (i < |s| && ':' in s[..i] ==> r == HeadRun(Ctx(ExpectHeaders, WithHeader(req, s[..i])), s[i + 2..]))
      && (i < |s| && ':' !in s[..i] ==> r == Result(Ctx(EndOfHeaders(req), req), s[i + 2..], Ok))
  {
    hide HeadRun, WithHeader, SearchCRLF, Stoi, BodyPart, ProcessLine;
    var i := SearchCRLF(s);
    if i < |s| {
      CutLine(s, []);
    }
    HeadUnfold(Ctx(ExpectHeaders, req), s);
    if i < |s| && ':' !in s[..i] {
      HeadUnfold(Ctx(EndOfHeaders(req), req), s[i + 2..]);
    }
  }

  /** The header lines and the final line consumed by a run that got past the headers. */
  lemma {:induction false} HeadersParsed(req: Request, s: string) returns (hs: seq<string>, blank: string)
    requires !LineState(HeadRun(Ctx(ExpectHeaders, req), s).ctx.state)
    ensures forall i :: 0 <= i < |hs| ==> HeaderLine(hs[i])
    ensures NoCRLF(blank) && ':' !in blank
    ensures var r := HeadRun(Ctx(ExpectHeaders, req), s);
      s == EncodeHeaders(hs) + blank + CRLF + r.rest && r.ctx.req == WithHeaders(req, hs)
    decreases |s|
  {
    hide HeadRun, WithHeader, SearchCRLF, NoCRLF, LineState;
    HeaderCases(req, s);
    CutLine(s, []);
    var i := SearchCRLF(s);
    var h := s[..i];
    SearchNone(h);
    if ':' in h {
      var hs', blank' := HeadersParsed(WithHeader(req, h), s[i + 2..]);
      hs, blank := [h] + hs', blank';
      assert hs[1..] == hs';
    } else {
      hs, blank := [], h;
    }
  }

  /** Whatever gets past the headers begins with the encoding of a valid message, and the parse is that message. */
  lemma MsgOfHead(s: string) returns (m: Msg)
    requires !LineState(HeadRun(START, s).ctx.state)
    ensures ValidMsg(m) && s == Encode(m) + HeadRun(START, s).rest
    ensures HeadRun(START, s).ctx.req == RequestOf(m)
  {
    hide HeadRun, ProcessLine, SearchCRLF, NoCRLF, Stoi, BodyPart, WithHeader;
    HeadUnfold(START, s);
    CutLine(s, []);
    var i := SearchCRLF(s);
    var hs, blank := HeadersParsed(ProcessLine(FRESH, s[..i]).req, s[i + 2..]);
    m := Msg(s[..i], hs, blank);
    assert s == Encode(m) + HeadRun(START, s).rest;
  }

  lemma DoneAfterHead(s: string)
    requires Run(START, s).ctx.state == GotAll && Run(START, s).ctx.req.verb != POST
    ensures HeadRun(START, s) == Run(START, s)
  {
    hide HeadRun, Run, Stoi, BodyPart;
    RunIsHeadThenBody(START, s);
    HeadVerb(START, s);
  }

  /** The accepted grammar. A stream yields a complete non-POST request req and leaves rest unread if and only if
      it is the encoding of a valid message for req, followed by rest. */
  lemma AcceptedStreams(s: string, req: Request, rest: string)
    requires req.verb != POST
    ensures Run(START, s) == Result(Ctx(GotAll, req), rest, Ok)
       <==> exists m :: ValidMsg(m) && s == Encode(m) + rest && RequestOf(m) == req
  {
    hide HeadRun, Run, Encode, RequestOf;
    if Run(START, s) == Result(Ctx(GotAll, req), rest, Ok) {
      DoneAfterHead(s);
      var m := MsgOfHead(s);
    }
    if m: Msg :| ValidMsg(m) && s == Encode(m) + rest && RequestOf(m) == req {
      ParseMsg(m, rest);
    }
  }

  // ---- bodies ----

  /** A POST message whose body bytes b arrive in the same stream: without a length the parser throws, with length 0
      the request is complete and b stays unread. */
  lemma PostWithoutBody(m: Msg, b: string)
    requires ValidMsg(m) && RequestOf(m).verb == POST
    ensures var n := Stoi(Header(RequestOf(m), "Content-Length"));
      && (n == None ==> Run(START, Encode(m) + b) == Result(Ctx(ExpectBody, RequestOf(m)), b, Threw))
      && (n == Some(0) ==> Run(START, Encode(m) + b) == Result(Ctx(GotAll, RequestOf(m)), b, Ok))
  {
    hide HeadRun, Run, ProcessLine, Stoi;
    HeadOfMsg(m, b);
    RunIsHeadThenBody(START, Encode(m) + b);
  }

  lemma PostBodyIs(m: Msg, b: string, n: int)
    requires ValidMsg(m) && RequestOf(m).verb == POST
    requires Stoi(Header(RequestOf(m), "Content-Length")) == Some(n) && n != 0 && b != []
    ensures Run(START, Encode(m) + b)
      == Result(Ctx(if |BodyPart(b)| == n then GotAll else ExpectBody, RequestOf(m).(body := BodyPart(b))), [], Ok)
  {
    hide HeadRun, Run, ProcessLine, Stoi, BodyPart;
    HeadOfMsg(m, b);
    RunIsHeadThenBody(START, Encode(m) + b);
    BodyOfFresh(m);
    assert RequestOf(m).body + BodyPart(b) == BodyPart(b);
  }

  /** With any other length n: the body kept is what follows the first CRLF of the bytes after the headers, or all of
      them when there is none. The request is complete exactly when that has length n; nothing stays unread. */
  lemma PostBody(m: Msg, x: string, y: string, n: int)
    requires ValidMsg(m) && RequestOf(m).verb == POST && NoCRLF(x)
    requires Stoi(Header(RequestOf(m), "Content-Length")) == Some(n) && n != 0
    ensures Run(START, Encode(m) + (x + CRLF + y))
      == Result(Ctx(if |y| == n then GotAll else ExpectBody, RequestOf(m).(body := y)), [], Ok)
    ensures x != [] ==>
      Run(START, Encode(m) + x)
        == Result(Ctx(if |x| == n then GotAll else ExpectBody, RequestOf(m).(body := x)), [], Ok)
  {
    var b := x + CRLF + y;
    SearchLine(x, y);
    assert b[|x| + 2..] == y;
    BodyPartTame(x);
    assert BodyPart(b) == y;
    hide Run, Stoi, BodyPart, Encode, RequestOf;
    PostBodyIs(m, b, n);
    if x != [] {
      PostBodyIs(m, x, n);
    }
  }

  lemma BodyOfFresh(m: Msg)
    requires ValidMsg(m)
    ensures RequestOf(m).body == []
  {
    HeadersKeepBody(ProcessLine(FRESH, m.line).req, m.headers);
    LineKeepsEmptyBody(m.line);
  }

  lemma LineKeepsEmptyBody(line: string)
    ensures ProcessLine(FRESH, line).req.body == []
  {
    hide MethodOf;
  }

  lemma {:induction false} HeadersKeepBody(req: Request, hs: seq<string>)
    requires forall i :: 0 <= i < |hs| ==> HeaderLine(hs[i])
    ensures WithHeaders(req, hs).body == req.body && WithHeaders(req, hs).verb == req.verb
         && WithHeaders(req, hs).version == req.version && WithHeaders(req, hs).path == req.path
         && WithHeaders(req, hs).query == req.query
    decreases |hs|
  {
    if hs != [] {
      HeadersKeepBody(WithHeader(req, hs[0]), hs[1..]);
    }
  }

  /** The condition of ChunkIndependence in terms of the message: a POST with its body bytes b gives the same result
      for every division into reads if and only if Content-Length is no int or 0, or b is free of CRLF and no longer
      than Content-Length (a negative length is never reached). */
  lemma PostIndependence(m: Msg, b: string)
    requires ValidMsg(m) && RequestOf(m).verb == POST
    ensures var s, n := Encode(m) + b, Stoi(Header(RequestOf(m), "Content-Length"));
      (forall chunks :: Flatten(chunks) == s ==> FeedAll(IDLE, chunks) == Run(START, s))
        <==> n == None || n.value == 0 || (NoCRLF(b) && (n.value < 0 || |b| <= n.value))
  {
    hide HeadRun, Run, ProcessLine, Stoi, FeedAll, Flatten;
    HeadOfMsg(m, b);
    BodyOfFresh(m);
    ChunkIndependence(Encode(m) + b);
  }

  // ---- back-to-back requests ----

  datatype Served = Served(requests: seq<Request>, rest: string)

  /** parseRequest then reset, up to k times, as long as a whole request comes out. */
  function Serve(k: nat, s: string): Served {
    if k == 0 then Served([], s)
    else
      var r := Run(START, s);
      if r.ctx.state != GotAll then Served([], s)
      else
        var more := Serve(k - 1, r.rest);
        Served([r.ctx.req] + more.requests, more.rest)
  }

  function EncodeAll(ms: seq<Msg>): string {
    if ms == [] then [] else Encode(ms[0]) + EncodeAll(ms[1..])
  }

  ghost predicate ValidMsgs(ms: seq<Msg>) {
    ms == [] || (ValidMsg(ms[0]) && RequestOf(ms[0]).verb != POST && ValidMsgs(ms[1..]))
  }

  ghost function RequestsOf(ms: seq<Msg>): seq<Request>
    requires ValidMsgs(ms)
  {
    if ms == [] then [] else [RequestOf(ms[0])] + RequestsOf(ms[1..])
  }

  lemma ServeOne(k: nat, m: Msg, t: string)
    requires ValidMsg(m) && RequestOf(m).verb != POST
    ensures Serve(k + 1, Encode(m) + t) == Served([RequestOf(m)] + Serve(k, t).requests, Serve(k, t).rest)
  {
    hide Run, Encode, RequestOf;
    ParseMsg(m, t);
  }

  /** Serving the concatenation of k valid non-POST messages and any tail yields their requests in order
      and leaves exactly the tail. */
  lemma {:induction false} PipelinedRequests(ms: seq<Msg>, tail: string)
    requires ValidMsgs(ms)
    ensures Serve(|ms|, EncodeAll(ms) + tail) == Served(RequestsOf(ms), tail)
    decreases |ms|
  {
    hide Run, Encode, RequestOf;
    if ms == [] {
      assert [] + tail == tail;
    } else {
      var t := EncodeAll(ms[1..]) + tail;
      assert EncodeAll(ms) + tail == Encode(ms[0]) + t;
      hide ValidMsg, Serve;
      ServeOne(|ms| - 1, ms[0], t);
      PipelinedRequests(ms[1..], tail);
    }
  }
}
