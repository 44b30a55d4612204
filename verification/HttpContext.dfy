/** http/HttpContext.h, http/HttpContext.cc: the resumable request parser. */
module HttpContexts {
  import opened Wrappers
  import opened Text
  import opened Buffers
  import opened HttpRequests

  datatype ParseState = ExpectRequestLine | ExpectHeaders | ExpectBody | GotAll

  datatype Ctx = Ctx(state: ParseState, req: Request)

  /** parseRequest returns true (Ok) or false (Bad), or std::stoi throws out of it (Threw). */
  datatype Outcome = Ok | Bad | Threw

  /** What a call leaves behind: the parser, the unread bytes and the verdict. */
  datatype Result = Result(ctx: Ctx, rest: string, out: Outcome)

  const START: Ctx := Ctx(ExpectRequestLine, FRESH)

  datatype LineResult = LineResult(ok: bool, req: Request)

  function WithTarget(req: Request, target: string): Request {
    var q := Find(target, '?');
    if q < |target| then req.(path := target[..q], query := target[q..]) else req.(path := target)
  }

  function WithVersion(req: Request, version: string): LineResult {
    if |version| == 8 && version[..7] == "HTTP/1." && version[7] == '1' then
      LineResult(true, req.(version := kHttp11))
    else if |version| == 8 && version[..7] == "HTTP/1." && version[7] == '0' then
      LineResult(true, req.(version := kHttp10))
    else LineResult(false, req)
  }

  /** The part of processRequestLine after the method: a target, a space and a version. */
  function AfterMethod(req: Request, after: string): LineResult {
    var j := Find(after, ' ');
    if j == |after| then LineResult(false, req)
    else WithVersion(WithTarget(req, after[..j]), after[j + 1..])
  }

  /** processRequestLine. Fields set before the line is refused stay set. */
  function ProcessLine(req: Request, line: string): LineResult {
    var i := Find(line, ' ');
    if i == |line| then LineResult(false, req)
    else AfterMethod(req.(verb := MethodOf(line[..i])), line[i + 1..])
  }

  function Header(req: Request, field: string): string {
    if field in req.headers then req.headers[field] else []
  }

  /** The body bytes the parser keeps from a read: everything after the first CRLF, or everything. */
  function BodyPart(s: string): string {
    var i := SearchCRLF(s);
    if i < |s| then s[i + 2..] else s
  }

  datatype StepResult = More(ctx: Ctx, rest: string) | Done(result: Result)

  /** One iteration of the parse loop. */
  function Step(c: Ctx, s: string): StepResult {
    match c.state
    case ExpectRequestLine =>
      var i := SearchCRLF(s);
      if i == |s| then Done(Result(c, s, Ok))
      else
        var l := ProcessLine(c.req, s[..i]);
        if l.ok then More(Ctx(ExpectHeaders, l.req), s[i + 2..])
        else Done(Result(Ctx(ExpectRequestLine, l.req), s, Bad))
    case ExpectHeaders =>
      var i := SearchCRLF(s);
      if i == |s| then Done(Result(c, s, Ok))
      else if ':' in s[..i] then More(Ctx(ExpectHeaders, WithHeader(c.req, s[..i])), s[i + 2..])
      else More(Ctx(if c.req.verb == POST then ExpectBody else GotAll, c.req), s[i + 2..])
    case ExpectBody =>
      var n := Stoi(Header(c.req, "Content-Length"));
      if n == None then Done(Result(c, s, Threw))
      else if n.value == 0 then More(c.(state := GotAll), s)
      else if s == [] then Done(Result(c, s, Ok))
      else
        var req := c.req.(body := c.req.body + BodyPart(s));
        More(Ctx(if |req.body| == n.value then GotAll else ExpectBody, req), [])
    case GotAll => Done(Result(c, s, Ok))
  }

  function Rank(p: ParseState): nat {
    match p
    case ExpectRequestLine => 3
    case ExpectHeaders => 2
    case ExpectBody => 1
    case GotAll => 0
  }

  /** The whole loop. It terminates because the state advances or the unread bytes shrink. */
  function Run(c: Ctx, s: string): Result
    decreases Rank(c.state), |s|
  {
    match Step(c, s)
    case More(c', s') => Run(c', s')
    case Done(r) => r
  }

  /** The step from (c, s) was taken: on to (c', s'), or out of the loop with that verdict. */
  ghost predicate StepTaken(c: Ctx, s: string, c': Ctx, s': string, out: Outcome, hasMore: bool) {
    Step(c, s) == if hasMore then More(c', s') else Done(Result(c', s', out))
  }

  lemma {:induction false} StepEffect(c: Ctx, s: string, c': Ctx, s': string, out: Outcome, hasMore: bool)
    requires StepTaken(c, s, c', s', out, hasMore)
    ensures !hasMore ==> Run(c, s) == Result(c', s', out) && s' == s && c'.state == c.state
    ensures hasMore ==> Run(c, s) == Run(c', s') && |s'| <= |s|
    ensures hasMore ==> Rank(c'.state) < Rank(c.state) || (Rank(c'.state) == Rank(c.state) && |s'| < |s|)
  {
    hide ProcessLine, WithHeader, Header, BodyPart, Stoi;
  }

  /** A call returning true stops only when it has to: it has the whole request, or no complete line is left,
      or the body needs bytes and none are left. A call returning false stands at a complete, refused line. */
  lemma {:induction false} RunStarves(c: Ctx, s: string)
    ensures var r := Run(c, s);
      match r.out
      case Ok =>
        (match r.ctx.state
         case GotAll => true
         case ExpectBody => r.rest == []
         case _ => NoCRLF(r.rest))
      case Bad =>
        c.state == ExpectRequestLine && r.rest == s && SearchCRLF(s) < |s|
        && !ProcessLine(c.req, s[..SearchCRLF(s)]).ok
      case Threw =>
        r.ctx.state == ExpectBody && Stoi(Header(r.ctx.req, "Content-Length")) == None
    decreases Rank(c.state), |s|
  {
    SearchNone(s);
    match Step(c, s)
    case More(c', s') => RunStarves(c', s');
    case Done(_) =>
  }

  lemma LineEnds(s: string)
    ensures SearchCRLF(s) < |s| ==> SearchCRLF(s) + 2 <= |s|
  {
    assert SearchCRLF(s) < |s| ==> CrlfAt(s, SearchCRLF(s));
  }

  /** The parser object. */
  class HttpContext {
    const request_: HttpRequest
    var parseState_: ParseState

    ghost function Abs(): Ctx
      reads this, request_
    {
      Ctx(parseState_, request_.Abs())
    }

    constructor ()
      ensures Abs() == START && fresh(request_)
    {
      request_ := new HttpRequest();
      parseState_ := ExpectRequestLine;
    }

    /** Back to the first state with a fresh request, by swapping with one. */
    method Reset()
      modifies this, request_
      ensures Abs() == START
    {
      parseState_ := ExpectRequestLine;
      var dummy := new HttpRequest();
      request_.Swap(dummy);
    }

    method ProcessTarget(target: string)
      modifies request_
      ensures request_.Abs() == WithTarget(old(request_.Abs()), target)
    {
      var question := Find(target, '?');
      if question != |target| {
        request_.SetPath(target[..question]);
        request_.SetQuery(target[question..]);
      } else {
        request_.SetPath(target);
      }
    }

    method ProcessVersion(version: string) returns (succeed: bool)
      modifies request_
      ensures LineResult(succeed, request_.Abs()) == WithVersion(old(request_.Abs()), version)
    {
      succeed := |version| == 8 && version[..7] == "HTTP/1.";
      if succeed {
        if version[7] == '1' {
          request_.SetVersion(kHttp11);
        } else if version[7] == '0' {
          request_.SetVersion(kHttp10);
        } else {
          succeed := false;
        }
      }
    }

    method ProcessAfterMethod(start: string) returns (succeed: bool)
      modifies request_
      ensures LineResult(succeed, request_.Abs()) == AfterMethod(old(request_.Abs()), start)
    {
      succeed := false;
      var space := Find(start, ' ');
      if space != |start| {
        ProcessTarget(start[..space]);
        succeed := ProcessVersion(start[space + 1..]);
      }
    }

    method ProcessRequestLine(line: string) returns (succeed: bool)
      modifies request_
      ensures LineResult(succeed, request_.Abs()) == ProcessLine(old(request_.Abs()), line)
    {
      hide MethodOf, AfterMethod;
      succeed := false;
      var space := Find(line, ' ');
      if space != |line| {
        var known := request_.SetMethod(line[..space]);
        if known {
          succeed := ProcessAfterMethod(line[space + 1..]);
        }
      }
    }

    // parseRequest's loop body, one method a state; hasMore is the loop's flag.

    method ParseLineState(buf: Buffer) returns (out: Outcome, hasMore: bool)
      requires buf.Valid() && parseState_ == ExpectRequestLine
      modifies this`parseState_, request_, buf`readIndex_, buf`writeIndex_
      ensures buf.Valid() && buf.buffer_ == old(buf.buffer_)
      ensures StepTaken(old(Abs()), old(buf.Contents()), Abs(), buf.Contents(), out, hasMore)
    {
      hide WithHeader, ProcessLine, BodyPart, Stoi, SearchCRLF;
      SearchNone(buf.Contents());
      var crlf := buf.FindCRLF();
      if crlf == None {
        return Ok, false;
      }
      var line := buf.buffer_[buf.readIndex_..buf.readIndex_ + crlf.value];
      assert line == buf.Contents()[..crlf.value];
      var ok := ProcessRequestLine(line);
      if ok {
        var _ := buf.RetrieveLen(crlf.value + 2);
        parseState_ := ExpectHeaders;
        return Ok, true;
      }
      return Bad, false;
    }

    method ParseHeaderState(buf: Buffer) returns (out: Outcome, hasMore: bool)
      requires buf.Valid() && parseState_ == ExpectHeaders
      modifies this`parseState_, request_, buf`readIndex_, buf`writeIndex_
      ensures buf.Valid() && buf.buffer_ == old(buf.buffer_)
      ensures StepTaken(old(Abs()), old(buf.Contents()), Abs(), buf.Contents(), out, hasMore)
    {
      hide WithHeader, ProcessLine, BodyPart, Stoi, SearchCRLF, CrlfAt, NoCRLF, Retrieved, Header;
      SearchNone(buf.Contents());
      var crlf := buf.FindCRLF();
      if crlf == None {
        return Ok, false;
      }
      var line := buf.buffer_[buf.readIndex_..buf.readIndex_ + crlf.value];
      assert line == buf.Contents()[..crlf.value];
      LineEnds(buf.Contents());
      var colon := Find(line, ':');
      if colon != |line| {
        request_.AddHeader(line, colon);
      } else if request_.method_ == POST {
        parseState_ := ExpectBody;
      } else {
        parseState_ := GotAll;
      }
      var _ := buf.RetrieveLen(crlf.value + 2);
      return Ok, true;
    }

    method ParseBodyState(buf: Buffer) returns (out: Outcome, hasMore: bool)
      requires buf.Valid() && parseState_ == ExpectBody
      modifies this`parseState_, request_, buf`readIndex_, buf`writeIndex_
      ensures buf.Valid() && buf.buffer_ == old(buf.buffer_)
      ensures StepTaken(old(Abs()), old(buf.Contents()), Abs(), buf.Contents(), out, hasMore)
    {
      hide WithHeader, ProcessLine, Stoi, SearchCRLF, CrlfAt, NoCRLF, Retrieved;
      var length := Stoi(request_.GetHeader("Content-Length"));
      if length == None {
        return Threw, false;
      }
      if length.value == 0 {
        parseState_ := GotAll;
        return Ok, true;
      }
      if buf.ReadableBytes() == 0 {
        return Ok, false;
      }
      var body := TakeBody(buf);
      request_.AppendBody(body);
      if |request_.body_| == length.value {
        parseState_ := GotAll;
      }
      return Ok, true;
    }

    /** The bytes behind the first CRLF, or all of them; the buffer is emptied. */
    method TakeBody(buf: Buffer) returns (body: string)
      requires buf.Valid()
      modifies buf`readIndex_, buf`writeIndex_
      ensures buf.Valid() && buf.buffer_ == old(buf.buffer_)
      ensures body == BodyPart(old(buf.Contents())) && buf.Contents() == []
    {
      hide SearchCRLF, CrlfAt, NoCRLF, Retrieved;
      SearchNone(buf.Contents());
      LineEnds(buf.Contents());
      var crlf := buf.FindCRLF();
      if crlf.Some? {
        var _ := buf.RetrieveLen(crlf.value + 2);
      }
      body := buf.RetrieveAll();
    }

    method ParseOnce(buf: Buffer) returns (out: Outcome, hasMore: bool)
      requires buf.Valid()
      modifies this`parseState_, request_, buf`readIndex_, buf`writeIndex_
      ensures buf.Valid() && buf.buffer_ == old(buf.buffer_)
      ensures StepTaken(old(Abs()), old(buf.Contents()), Abs(), buf.Contents(), out, hasMore)
    {
      if parseState_ == ExpectRequestLine {
        out, hasMore := ParseLineState(buf);
      } else if parseState_ == ExpectHeaders {
        out, hasMore := ParseHeaderState(buf);
      } else if parseState_ == ExpectBody {
        out, hasMore := ParseBodyState(buf);
      } else {
        out, hasMore := Ok, false;
      }
    }

    method ParseRequest(buf: Buffer) returns (out: Outcome)
      requires buf.Valid()
      modifies this`parseState_, request_, buf`readIndex_, buf`writeIndex_
      ensures buf.Valid() && buf.buffer_ == old(buf.buffer_)
      ensures Result(Abs(), buf.Contents(), out) == Run(old(Abs()), old(buf.Contents()))
    {
      hide Run, Step, StepTaken;
      out := Ok;
      var hasMore := true;
      ghost var goal := Run(Abs(), buf.Contents());
      while hasMore
        invariant buf.Valid() && buf.buffer_ == old(buf.buffer_)
        invariant hasMore ==> Run(Abs(), buf.Contents()) == goal
        invariant !hasMore ==> Result(Abs(), buf.Contents(), out) == goal
        decreases Rank(parseState_), |buf.Contents()|, hasMore
      {
        ghost var c, s := Abs(), buf.Contents();
        out, hasMore := ParseOnce(buf);
        StepEffect(c, s, Abs(), buf.Contents(), out, hasMore);
      }
    }
  }
}
