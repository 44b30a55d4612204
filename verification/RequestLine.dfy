/** The language of request lines accepted by HttpContext::processRequestLine. */
module RequestLines {
  import opened Text
  import opened HttpRequests
  import opened HttpContexts

  function VersionText(v: Version): string {
    if v == kHttp10 then "HTTP/1.0" else "HTTP/1.1"
  }

  /** The line reads: method, space, target, space, version; either of the first two may be empty. */
  ghost predicate Spells(line: string, token: string, target: string, v: Version) {
    && ' ' !in token && ' ' !in target && v != kUnknown
    && line == token + " " + target + " " + VersionText(v)
  }

  lemma VersionAccepted(req: Request, s: string)
    ensures WithVersion(req, s).ok <==> s == VersionText(kHttp10) || s == VersionText(kHttp11)
    ensures s == VersionText(kHttp10) ==> WithVersion(req, s).req == req.(version := kHttp10)
    ensures s == VersionText(kHttp11) ==> WithVersion(req, s).req == req.(version := kHttp11)
  {
    assert "HTTP/1.0"[..7] == "HTTP/1." && "HTTP/1.1"[..7] == "HTTP/1.";
    if |s| == 8 && s[..7] == "HTTP/1." {
      assert s == s[..7] + [s[7]];
      assert "HTTP/1." + "0" == "HTTP/1.0" && "HTTP/1." + "1" == "HTTP/1.1";
    }
  }

  lemma FindSpace(a: string, after: string, line: string)
    requires ' ' !in a && line == a + " " + after
    ensures Find(line, ' ') == |a| && a == line[..|a|] && after == line[|a| + 1..]
  {
    assert line[..|a|] == a && line[|a|] == ' ';
    FindIs(line, ' ', |a|);
  }

  lemma SpelledRest(req: Request, target: string, v: Version)
    requires ' ' !in target && v != kUnknown
    ensures AfterMethod(req, target + " " + VersionText(v)) == LineResult(true, WithTarget(req, target).(version := v))
  {
    hide WithTarget, WithVersion, VersionText, Find;
    FindSpace(target, VersionText(v), target + " " + VersionText(v));
    VersionAccepted(WithTarget(req, target), VersionText(v));
  }

  /** A line that spells (token, target, v) is accepted and parsed into those three. */
  lemma SpelledLine(req: Request, line: string, token: string, target: string, v: Version)
    requires Spells(line, token, target, v)
    ensures ProcessLine(req, line)
      == LineResult(true, WithTarget(req.(verb := MethodOf(token)), target).(version := v))
  {
    hide MethodOf, WithTarget, AfterMethod, VersionText, Find;
    var after := target + " " + VersionText(v);
    assert line == token + " " + after;
    FindSpace(token, after, line);
    SpelledRest(req.(verb := MethodOf(token)), target, v);
  }

  lemma AcceptedRest(req: Request, after: string) returns (target: string, v: Version)
    requires AfterMethod(req, after).ok
    ensures ' ' !in target && v != kUnknown && after == target + " " + VersionText(v)
  {
    hide WithTarget, WithVersion;
    var j := Find(after, ' ');
    target := after[..j];
    VersionAccepted(WithTarget(req, target), after[j + 1..]);
    v := if after[j + 1..] == VersionText(kHttp10) then kHttp10 else kHttp11;
    assert after == after[..j] + [after[j]] + after[j + 1..];
  }

  /** An accepted line spells its parts. */
  lemma AcceptedLine(req: Request, line: string) returns (token: string, target: string, v: Version)
    requires ProcessLine(req, line).ok
    ensures Spells(line, token, target, v)
  {
    hide MethodOf, AfterMethod, VersionText;
    var i := Find(line, ' ');
    token := line[..i];
    target, v := AcceptedRest(req.(verb := MethodOf(token)), line[i + 1..]);
    assert line == line[..i] + [line[i]] + line[i + 1..];
  }

  /** The accepted language, both directions, whatever the request held before. */
  lemma RequestLineLanguage(req: Request, line: string)
    ensures ProcessLine(req, line).ok
       <==> exists token: string, target: string, v: Version :: Spells(line, token, target, v)
  {
    if ProcessLine(req, line).ok {
      var token, target, v := AcceptedLine(req, line);
    } else if exists token: string, target: string, v: Version :: Spells(line, token, target, v) {
      var token, target, v :| Spells(line, token, target, v);
      SpelledLine(req, line, token, target, v);
      assert false;
    }
  }

  /** The spelling is unique, so the parts of an accepted line are well defined. */
  lemma SpellingUnique(line: string, a: string, b: string, v: Version, a': string, b': string, v': Version)
    requires Spells(line, a, b, v) && Spells(line, a', b', v')
    ensures a == a' && b == b' && v == v'
  {
    assert line == a + " " + (b + " " + VersionText(v)) == a' + " " + (b' + " " + VersionText(v'));
    FindSpace(a, b + " " + VersionText(v), line);
    FindSpace(a', b' + " " + VersionText(v'), line);
    FindSpace(b, VersionText(v), b + " " + VersionText(v));
    FindSpace(b', VersionText(v'), b' + " " + VersionText(v'));
    assert "HTTP/1.0"[7] != "HTTP/1.1"[7];
  }

  lemma TargetSplits(req: Request, target: string)
    requires req.query == []
    ensures var r := WithTarget(req, target);
      && r.path + r.query == target && '?' !in r.path && (r.query == [] || r.query[0] == '?')
      && r == req.(path := r.path, query := r.query)
  {
    var q := Find(target, '?');
    assert target == target[..q] + target[q..];
  }

  /** From a fresh request, path and query split the target at its first '?' (kept by the query);
      nothing else is recorded. */
  lemma FreshLine(line: string, token: string, target: string, v: Version)
    requires Spells(line, token, target, v)
    ensures var r := ProcessLine(FRESH, line).req;
      && r.path + r.query == target && '?' !in r.path && (r.query == [] || r.query[0] == '?')
      && r.verb == MethodOf(token) && r.version == v && r.headers == map[] && r.body == []
  {
    hide MethodOf, WithTarget, ProcessLine;
    SpelledLine(FRESH, line, token, target, v);
    TargetSplits(FRESH.(verb := MethodOf(token)), target);
  }

  /** What a refused line leaves in the request: nothing new without a space, the method with one space, the method and
      the target when only the version is wrong. */
  lemma RefusedRecords(req: Request, line: string, token: string, after: string, target: string, junk: string)
    requires !ProcessLine(req, line).ok
    ensures ' ' !in line ==> ProcessLine(req, line).req == req
    ensures ' ' !in token && line == token + " " + after ==>
      && (' ' !in after ==> ProcessLine(req, line).req == req.(verb := MethodOf(token)))
      && (' ' !in target && after == target + " " + junk ==>
            ProcessLine(req, line).req == WithTarget(req.(verb := MethodOf(token)), target))
  {
    hide MethodOf, WithTarget;
    if ' ' !in token && line == token + " " + after {
      FindSpace(token, after, line);
      if ' ' !in target && after == target + " " + junk {
        FindSpace(target, junk, after);
      }
    }
  }

  /** Re-reading a refused line leaves the request as the first reading left it. */
  lemma RefusedAgain(req: Request, line: string)
    requires !ProcessLine(req, line).ok
    ensures ProcessLine(ProcessLine(req, line).req, line) == ProcessLine(req, line)
  {
    hide MethodOf;
  }
}
