/** How the division of a byte stream into reads affects HttpContext::parseRequest. */
module ChunkSplits {
  import opened Wrappers
  import opened Text
  import opened HttpRequests
  import opened HttpContexts
  import opened RequestLines

  function Flatten(chunks: seq<string>): string {
    if chunks == [] then [] else chunks[0] + Flatten(chunks[1..])
  }

  /** Reads arrive one after the other; each is appended to the unread bytes and the parser runs. */
  function FeedAll(r: Result, chunks: seq<string>): Result
    decreases |chunks|
  {
    if chunks == [] then r else FeedAll(Run(r.ctx, r.rest + chunks[0]), chunks[1..])
  }

  const IDLE: Result := Result(START, [], Ok)

  /** One more read at the end. */
  lemma {:induction false} FeedMore(r: Result, chunks: seq<string>, x: string)
    ensures FeedAll(r, chunks + [x]) == Run(FeedAll(r, chunks).ctx, FeedAll(r, chunks).rest + x)
    decreases |chunks|
  {
    hide Run;
    if chunks == [] {
      assert [] + [x] == [x] && [x][1..] == [];
      assert FeedAll(Run(r.ctx, r.rest + x), []) == Run(r.ctx, r.rest + x);
    } else {
      assert (chunks + [x])[0] == chunks[0] && (chunks + [x])[1..] == chunks[1..] + [x];
      FeedMore(Run(r.ctx, r.rest + chunks[0]), chunks[1..], x);
    }
  }

  lemma {:induction false} FlattenMore(chunks: seq<string>, x: string)
    ensures Flatten(chunks + [x]) == Flatten(chunks) + x
    decreases |chunks|
  {
    if chunks == [] {
      assert [] + [x] == [x] && [x][1..] == [];
    } else {
      assert (chunks + [x])[0] == chunks[0] && (chunks + [x])[1..] == chunks[1..] + [x];
      FlattenMore(chunks[1..], x);
    }
  }

  // ---- the two parts of a run ----

  predicate LineState(p: ParseState) { p == ExpectRequestLine || p == ExpectHeaders }

  /** The part of a run spent on the request line and the headers. */
  function HeadRun(c: Ctx, s: string): Result
    decreases Rank(c.state), |s|
  {
    if !LineState(c.state) then Result(c, s, Ok)
    else
      match Step(c, s)
      case More(c', s') => HeadRun(c', s')
      case Done(r) => r
  }

  function Length(c: Ctx): Option<int> {
    Stoi(Header(c.req, "Content-Length"))
  }

  /** The part of a run spent on the body. */
  function BodyRun(c: Ctx, s: string): Result
    requires c.state == ExpectBody
  {
    if Length(c) == None then Result(c, s, Threw)
    else if Length(c).value == 0 then Result(c.(state := GotAll), s, Ok)
    else if s == [] then Result(c, s, Ok)
    else
      var req := c.req.(body := c.req.body + BodyPart(s));
      Result(Ctx(if |req.body| == Length(c).value then GotAll else ExpectBody, req), [], Ok)
  }

  function AfterHead(h: Result): Result {
    if h.ctx.state == ExpectBody then BodyRun(h.ctx, h.rest) else h
  }

  lemma BodyRunIsRun(c: Ctx, s: string)
    requires c.state == ExpectBody
    ensures Run(c, s) == BodyRun(c, s)
  {
    hide ProcessLine, WithHeader, BodyPart, Stoi;
    match Step(c, s) {
      case Done(_) =>
      case More(c', s') =>
        assert Run(c, s) == Run(c', s');
        assert Length(c') == Length(c);
        match Step(c', s') {
          case Done(_) =>
          case More(_, _) =>
        }
    }
  }

  lemma {:induction false} RunIsHeadThenBody(c: Ctx, s: string)
    ensures Run(c, s) == AfterHead(HeadRun(c, s))
    decreases Rank(c.state), |s|
  {
    hide ProcessLine, WithHeader, BodyPart, Stoi, BodyRun;
    if c.state == ExpectBody {
      BodyRunIsRun(c, s);
    } else if LineState(c.state) {
      match Step(c, s)
      case More(c', s') => RunIsHeadThenBody(c', s');
      case Done(_) =>
    }
  }

  // ---- the head can always be resumed ----

  lemma StepExtend(c: Ctx, s: string, t: string)
    requires LineState(c.state) && Step(c, s).More?
    ensures Step(c, s + t) == More(Step(c, s).ctx, Step(c, s).rest + t)
  {
    hide ProcessLine, WithHeader, SearchCRLF, Header, Stoi, BodyPart;
    SearchExtend(s, t);
    var i := SearchCRLF(s);
    assert (s + t)[..i] == s[..i];
    assert (s + t)[i + 2..] == s[i + 2..] + t;
  }

  lemma StepRefusedAgain(c: Ctx, s: string, t: string)
    requires c.state == ExpectRequestLine && Step(c, s).Done? && Step(c, s).result.out == Bad
    ensures Step(c, s + t) == Done(Step(c, s).result.(rest := s + t))
    ensures Step(Step(c, s).result.ctx, s + t) == Step(c, s + t)
  {
    var i := SearchCRLF(s);
    RefusedAgain(c.req, s[..i]);
    hide ProcessLine;
    SearchExtend(s, t);
    assert (s + t)[..i] == s[..i];
  }

  lemma {:induction false} HeadResume(c: Ctx, s: string, t: string)
    ensures HeadRun(c, s + t) == HeadRun(HeadRun(c, s).ctx, HeadRun(c, s).rest + t)
    decreases Rank(c.state), |s|
  {
    if LineState(c.state) {
      if Step(c, s).More? {
        StepExtend(c, s, t);
        StepSmaller(c, s);
        HeadResume(Step(c, s).ctx, Step(c, s).rest, t);
      } else if Step(c, s).result.out == Bad {
        StepRefusedAgain(c, s, t);
      }
    }
  }

  lemma StepSmaller(c: Ctx, s: string)
    requires Step(c, s).More?
    ensures Rank(Step(c, s).ctx.state) < Rank(c.state)
         || (Rank(Step(c, s).ctx.state) == Rank(c.state) && |Step(c, s).rest| < |s|)
  {
    hide ProcessLine, WithHeader, Header, BodyPart, Stoi;
  }

  // ---- when the body can be resumed ----

  /** The body bytes b still to come, after the headers, do not depend on the reads: Content-Length does not ask
      for a body (or makes stoi throw), or b is free of CRLF and does not run past the declared length. */
  ghost predicate Tame(c: Ctx, b: string) {
    match Length(c)
    case None => true
    case Some(n) => n == 0 || (NoCRLF(b) && (n < |c.req.body| || |c.req.body| + |b| <= n))
  }

  /** The stream s never puts the parser in front of a body that depends on the reads. A stream that never asks
      for a body, in particular every stream whose method is not POST, is tame. */
  ghost predicate TameStream(c: Ctx, s: string) {
    var h := HeadRun(c, s);
    h.ctx.state == ExpectBody ==> Tame(h.ctx, h.rest)
  }

  lemma BodyPartTame(b: string)
    requires NoCRLF(b)
    ensures BodyPart(b) == b
  {
    SearchNone(b);
  }

  lemma BodyResume(c: Ctx, b: string, t: string)
    requires c.state == ExpectBody && Tame(c, b + t)
    ensures BodyRun(c, b + t) == Run(BodyRun(c, b).ctx, BodyRun(c, b).rest + t)
    ensures BodyRun(c, b).ctx.state == ExpectBody ==> Tame(BodyRun(c, b).ctx, BodyRun(c, b).rest + t)
  {
    hide Stoi, Run, Step;
    var r := BodyRun(c, b);
    if r.ctx.state == ExpectBody {
      BodyRunIsRun(r.ctx, r.rest + t);
    } else {
      GotAllStays(r.ctx, r.rest + t);
    }
    if Length(c) != None && Length(c).value != 0 {
      assert (b + t)[..|b|] == b && (b + t)[|b|..] == t;
      NoCRLFSlice(b + t, 0, |b|);
      NoCRLFSlice(b + t, |b|, |b + t|);
      assert (b + t)[0..|b|] == b && (b + t)[|b|..|b + t|] == t;
      BodyPartTame(b);
      BodyPartTame(t);
      BodyPartTame(b + t);
      assert r.ctx.req.headers == c.req.headers;
      assert c.req.body + (b + t) == (c.req.body + b) + t;
      assert b == [] ==> b + t == t;
      assert r.rest + t == t;
    }
  }

  lemma GotAllStays(c: Ctx, s: string)
    requires c.state == GotAll
    ensures Run(c, s) == Result(c, s, Ok)
  {
  }

  /** On a tame stream a run can be interrupted after any prefix and resumed with the rest. */
  lemma RunResume(c: Ctx, s: string, t: string)
    requires TameStream(c, s + t)
    ensures Run(c, s + t) == Run(Run(c, s).ctx, Run(c, s).rest + t)
    ensures TameStream(Run(c, s).ctx, Run(c, s).rest + t)
  {
    hide Run, Step, BodyRun, Length;
    var h := HeadRun(c, s);
    RunIsHeadThenBody(c, s);
    RunIsHeadThenBody(c, s + t);
    HeadResume(c, s, t);
    if h.ctx.state == ExpectBody {
      BodyResume(h.ctx, h.rest, t);
      BodyStops(h.ctx, h.rest);
    } else {
      RunIsHeadThenBody(h.ctx, h.rest + t);
    }
  }

  lemma BodyStops(c: Ctx, b: string)
    requires c.state == ExpectBody
    ensures !LineState(BodyRun(c, b).ctx.state)
  {
  }

  /** A finished run is a fixed point. */
  lemma {:induction false} RunStops(c: Ctx, s: string)
    ensures Run(Run(c, s).ctx, Run(c, s).rest) == Run(c, s)
    decreases Rank(c.state), |s|
  {
    if Step(c, s).More? {
      StepSmaller(c, s);
      RunStops(Step(c, s).ctx, Step(c, s).rest);
    } else if Step(c, s).result.out == Bad {
      hide ProcessLine;
      StepRefusedAgain(c, s, []);
      assert s + [] == s;
    }
  }

  lemma {:induction false} FeedAllIsRun(r: Result, chunks: seq<string>)
    requires Run(r.ctx, r.rest) == r
    requires TameStream(r.ctx, r.rest + Flatten(chunks))
    ensures FeedAll(r, chunks) == Run(r.ctx, r.rest + Flatten(chunks))
    decreases |chunks|
  {
    hide Run, HeadRun, TameStream;
    if chunks == [] {
      assert r.rest + [] == r.rest;
    } else {
      var s, t := r.rest + chunks[0], Flatten(chunks[1..]);
      assert r.rest + Flatten(chunks) == s + t;
      RunResume(r.ctx, s, t);
      RunStops(r.ctx, s);
      FeedAllIsRun(Run(r.ctx, s), chunks[1..]);
    }
  }

  // ---- and when it cannot ----

  /** The headers are a prefix of the stream, and whatever follows them is the body still to come. */
  lemma {:induction false} HeadPrefix(c: Ctx, s: string) returns (p: string)
    requires HeadRun(c, s).ctx.state == ExpectBody
    ensures s == p + HeadRun(c, s).rest
    ensures forall x: string :: HeadRun(c, p + x) == Result(HeadRun(c, s).ctx, x, Ok)
    ensures HeadRun(c, s).ctx.req.body == c.req.body
    decreases Rank(c.state), |s|
  {
    hide Step, HeadRun;
    HeadUnfold(c, s);
    if !LineState(c.state) {
      p := [];
      forall x: string ensures HeadRun(c, p + x) == Result(c, x, Ok) {
        assert p + x == x;
        HeadUnfold(c, x);
      }
    } else {
      StepSmaller(c, s);
      var c', s' := Step(c, s).ctx, Step(c, s).rest;
      var q := HeadPrefix(c', s');
      HeadOfLine(c, s, s');
      var first := s[..SearchCRLF(s) + 2];
      p := first + q;
      forall x: string ensures HeadRun(c, p + x) == Result(HeadRun(c, s).ctx, x, Ok) {
        HeadOfLine(c, s, q + x);
        assert p + x == first + (q + x);
      }
      LineKeepsBody(c, s);
    }
  }

  lemma HeadUnfold(c: Ctx, s: string)
    ensures !LineState(c.state) ==> HeadRun(c, s) == Result(c, s, Ok)
    ensures LineState(c.state) && Step(c, s).More? ==> HeadRun(c, s) == HeadRun(Step(c, s).ctx, Step(c, s).rest)
    ensures LineState(c.state) && Step(c, s).Done? ==> LineState(HeadRun(c, s).ctx.state)
  {
    hide ProcessLine, WithHeader;
  }

  lemma HeadOfLine(c: Ctx, s: string, t: string)
    requires LineState(c.state) && Step(c, s).More?
    ensures SearchCRLF(s) + 2 <= |s| && s == s[..SearchCRLF(s) + 2] + Step(c, s).rest
    ensures HeadRun(c, s[..SearchCRLF(s) + 2] + t) == HeadRun(Step(c, s).ctx, t)
  {
    hide ProcessLine, WithHeader, SearchCRLF, Header, Stoi, BodyPart;
    StepOfLine(c, s, t);
    assert s == s[..SearchCRLF(s) + 2] + s[SearchCRLF(s) + 2..];
  }

  lemma LineKeepsBody(c: Ctx, s: string)
    requires LineState(c.state) && Step(c, s).More?
    ensures Step(c, s).ctx.req.body == c.req.body
  {
    hide MethodOf;
  }

  /** A step in a line state looks at the first line only. */
  lemma StepOfLine(c: Ctx, s: string, t: string)
    requires LineState(c.state) && Step(c, s).More?
    ensures SearchCRLF(s) + 2 <= |s|
    ensures Step(c, s[..SearchCRLF(s) + 2] + t) == More(Step(c, s).ctx, t)
  {
    hide ProcessLine, WithHeader, SearchCRLF, Header, Stoi, BodyPart;
    CutLine(s, t);
  }

  /** Where to cut a body that is not tame: inside its first CRLF, or at the declared length. */
  function BadCut(c: Ctx, b: string): nat
    requires Length(c).Some?
  {
    var i := SearchCRLF(b);
    if i < |b| then i + 1 else if Length(c).value < 0 then 0 else Length(c).value
  }

  lemma BadCutSplits(c: Ctx, b: string)
    requires c.state == ExpectBody && c.req.body == [] && !Tame(c, b)
    ensures var k := BadCut(c, b);
      0 < k < |b| && Run(BodyRun(c, b[..k]).ctx, BodyRun(c, b[..k]).rest + b[k..]) != BodyRun(c, b)
  {
    hide Stoi, Run, Step;
    SearchNone(b);
    var i, k, n := SearchCRLF(b), BadCut(c, b), Length(c).value;
    var x, y := b[..k], b[k..];
    assert NoCRLF(x) by {
      forall j ensures !CrlfAt(x, j) {
        assert 0 <= j < i ==> !CrlfAt(b, j);
      }
    }
    BodyPartTame(x);
    var r := BodyRun(c, x);
    assert r.rest + y == y && r.ctx.req.body == x;
    if r.ctx.state == GotAll {
      GotAllStays(r.ctx, y);
    } else {
      assert i < |b|;
      BodyRunIsRun(r.ctx, y);
      assert r.ctx.req.headers == c.req.headers;
      BodiesDiffer(b, i);
    }
  }

  /** Keeping b up to its first CR and then what follows y's first CRLF is never what follows b's first CRLF. */
  lemma BodiesDiffer(b: string, i: nat)
    requires i == SearchCRLF(b) < |b|
    ensures b[..i + 1] + BodyPart(b[i + 1..]) != BodyPart(b)
  {
    var y := b[i + 1..];
    var j := SearchCRLF(y);
    var lhs, rhs := b[..i + 1] + BodyPart(y), b[i + 2..];
    if |lhs| == |rhs| {
      assert j == i && rhs[i] == y[j + 1] == '\n';
      assert lhs[i] == b[i] == '\r';
    }
  }

  /** The parser state, the request, the unread bytes and the verdict after a stream do not depend on how the
      stream was divided into reads, exactly when the stream is tame. */
  lemma ChunkIndependence(s: string)
    ensures (forall chunks :: Flatten(chunks) == s ==> FeedAll(IDLE, chunks) == Run(START, s))
       <==> TameStream(START, s)
  {
    hide FeedAll, Flatten, Run, HeadRun, TameStream;
    if TameStream(START, s) {
      forall chunks | Flatten(chunks) == s ensures FeedAll(IDLE, chunks) == Run(START, s) {
        TameReads(s, chunks);
      }
    } else {
      var chunks := WildReads(s);
    }
  }

  lemma TameReads(s: string, chunks: seq<string>)
    requires TameStream(START, s) && Flatten(chunks) == s
    ensures FeedAll(IDLE, chunks) == Run(START, s)
  {
    hide TameStream;
    assert [] + s == s;
    FeedAllIsRun(IDLE, chunks);
  }

  lemma BodyBehindHead(s: string, c: Ctx, b: string)
    requires HeadRun(START, s) == Result(c, b, Ok) && c.state == ExpectBody
    ensures Run(START, s) == BodyRun(c, b)
  {
    hide HeadRun, Run, BodyRun;
    RunIsHeadThenBody(START, s);
  }

  lemma Untame(s: string) returns (c: Ctx, b: string)
    requires !TameStream(START, s)
    ensures HeadRun(START, s).ctx == c && HeadRun(START, s).rest == b && c.state == ExpectBody && !Tame(c, b)
  {
    c, b := HeadRun(START, s).ctx, HeadRun(START, s).rest;
  }

  /** The stream in three: the headers p, and the body cut in two. */
  lemma CutBody(s: string, k: nat) returns (p: string)
    requires HeadRun(START, s).ctx.state == ExpectBody && k <= |HeadRun(START, s).rest|
    ensures var c, b := HeadRun(START, s).ctx, HeadRun(START, s).rest;
      s == p + b && c.req.body == [] && Run(START, s) == BodyRun(c, b) && Run(START, p + b[..k]) == BodyRun(c, b[..k])
  {
    p := HeadPrefix(START, s);
    hide HeadRun, Run, BodyRun;
    var c, b := HeadRun(START, s).ctx, HeadRun(START, s).rest;
    BodyBehindHead(p + b, c, b);
    BodyBehindHead(p + b[..k], c, b[..k]);
  }

  /** Two reads, the second beginning at byte k of the body. */
  lemma CutReads(s: string, k: nat) returns (chunks: seq<string>)
    requires HeadRun(START, s).ctx.state == ExpectBody && k <= |HeadRun(START, s).rest|
    ensures var c, b := HeadRun(START, s).ctx, HeadRun(START, s).rest;
      && Flatten(chunks) == s && c.req.body == [] && Run(START, s) == BodyRun(c, b)
      && FeedAll(IDLE, chunks) == Run(BodyRun(c, b[..k]).ctx, BodyRun(c, b[..k]).rest + b[k..])
  {
    hide FeedAll, Flatten, Run, BodyRun, HeadRun;
    var b := HeadRun(START, s).rest;
    var p := CutBody(s, k);
    TwoReads(p + b[..k], b[k..]);
    assert p + b[..k] + b[k..] == p + b;
    chunks := [p + b[..k], b[k..]];
  }

  /** A stream that is not tame has a division into two reads with another result. */
  lemma WildReads(s: string) returns (chunks: seq<string>)
    requires !TameStream(START, s)
    ensures Flatten(chunks) == s && FeedAll(IDLE, chunks) != Run(START, s)
  {
    var c, b := Untame(s);
    hide FeedAll, Flatten, Run, BodyRun, HeadRun, TameStream, Tame, BadCut;
    chunks := CutReads(s, 0);
    BadCutSplits(c, b);
    chunks := CutReads(s, BadCut(c, b));
  }

  lemma TwoReads(x: string, y: string)
    ensures Flatten([x, y]) == x + y
    ensures FeedAll(IDLE, [x, y]) == Run(Run(START, x).ctx, Run(START, x).rest + y)
  {
    hide Run;
    assert [x, y][1..] == [y] && [y][1..] == [] && [] + x == x;
    assert Flatten([y]) == y;
    var r := Run(START, x);
    assert FeedAll(IDLE, [x, y]) == FeedAll(r, [y]);
    assert FeedAll(r, [y]) == FeedAll(Run(r.ctx, r.rest + y), []);
  }

  /** Streams whose first request is not a POST are tame, so their parse never depends on the reads. */
  lemma NotPostIsTame(s: string)
    requires HeadRun(START, s).ctx.req.verb != POST
    ensures TameStream(START, s)
  {
    HeadVerb(START, s);
  }

  lemma {:induction false} HeadVerb(c: Ctx, s: string)
    requires c.state == ExpectBody ==> c.req.verb == POST
    ensures HeadRun(c, s).ctx.state == ExpectBody ==> HeadRun(c, s).ctx.req.verb == POST
    decreases Rank(c.state), |s|
  {
    hide ProcessLine;
    if LineState(c.state) && Step(c, s).More? {
      StepSmaller(c, s);
      HeadVerb(Step(c, s).ctx, Step(c, s).rest);
    }
  }
}
