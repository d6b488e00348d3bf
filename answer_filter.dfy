/**
 * Selection of version-tagged DNS answer texts, shared by the SPF, DKIM and
 * DMARC fetchers of the auditor. Each fetcher searches every answer text for
 * the pattern  ^"(<tag>.+)"$  and keeps group 1 of each match, in answer order.
 */
module AnswerFilter {
  import opened Optional

  const SpfTag: string := "v=spf1"
  const DkimTag: string := "v=DKIM1"
  const DmarcTag: string := "v=DMARC1"

  /** No character of `s` is a line feed, the one character `.` refuses. */
  predicate NoNewline(s: string) {
    '\n' !in s
  }

  /** The text up to where `$` may match: Python's `$` matches at the end of the
      string and also just before a single line feed that ends it. */
  function BeforeFinalNewline(a: string): (body: string)
    ensures (|a| > 0 && a[|a| - 1] == '\n') <==> a == body + "\n"
    ensures a == body || a == body + "\n"
  {
    if |a| > 0 && a[|a| - 1] == '\n' then a[..|a| - 1] else a
  }

  /** Group 1 of a case-sensitive search for  ^"(<tag>.+)"$  in the answer `a`. */
  function ExtractVersioned(tag: string, a: string): (g: Option<string>)
    ensures g.Some? ==> |g.value| + 2 <= |a| <= |g.value| + 3 && a[0] == '"'
  {
    var body := BeforeFinalNewline(a);
    if |body| >= |tag| + 3 && body[0] == '"' && body[1..|tag| + 1] == tag
       && NoNewline(body[|tag| + 1..|body| - 1]) && body[|body| - 1] == '"'
    then Some(body[1..|body| - 1])
    else None
  }

  /** `r` is the tag followed by at least one more character, none a line feed. */
  predicate Versioned(tag: string, r: string) {
    |r| > |tag| && r[..|tag|] == tag && NoNewline(r[|tag|..])
  }

  /** Whatever the extractor yields begins with the tag and spans no line. */
  lemma ExtractedIsVersioned(tag: string, a: string)
    ensures ExtractVersioned(tag, a).Some? ==> Versioned(tag, ExtractVersioned(tag, a).value)
  {
    var body := BeforeFinalNewline(a);
    if ExtractVersioned(tag, a).Some? {
      var g := body[1..|body| - 1];
      assert g[..|tag|] == body[1..|tag| + 1];
      assert g[|tag|..] == body[|tag| + 1..|body| - 1];
    }
  }

  /** The pattern read as a grammar: a quote, the group (the tag, then at least
      one character other than a line feed), a quote, then the end of the text,
      optionally after one line feed. */
  ghost predicate PatternMatch(tag: string, a: string, g: string) {
    && (a == "\"" + g + "\"" || a == "\"" + g + "\"\n")
    && Versioned(tag, g)
  }

  /** The extractor keeps exactly the texts the pattern matches, and yields their group. */
  lemma ExtractMatchesPattern(tag: string, a: string, g: string)
    ensures ExtractVersioned(tag, a) == Some(g) <==> PatternMatch(tag, a, g)
  {
    var body := BeforeFinalNewline(a);
    if ExtractVersioned(tag, a) == Some(g) {
      assert g == body[1..|body| - 1];
      assert body == "\"" + g + "\"" by {
        assert body == [body[0]] + body[1..|body| - 1] + [body[|body| - 1]];
      }
    }
    if PatternMatch(tag, a, g) {
      var quoted := "\"" + g + "\"";
      assert quoted[|quoted| - 1] == '"';
      assert body == quoted by {
        if a == quoted + "\n" {
          assert a[..|a| - 1] == quoted;
        }
      }
      assert quoted[1..|quoted| - 1] == g;
      assert quoted[1..|tag| + 1] == g[..|tag|];
      assert quoted[|tag| + 1..|quoted| - 1] == g[|tag|..];
    }
  }

  /** The group of every answer the extractor accepts, in answer order. */
  function KeepMatches(extract: string -> Option<string>, answers: seq<string>): (records: seq<string>)
    ensures |records| <= |answers|
  {
    if answers == [] then []
    else match extract(answers[0])
      case Some(g) => [g] + KeepMatches(extract, answers[1..])
      case None => KeepMatches(extract, answers[1..])
  }

  /** The fetchers' result for one version tag. */
  function Filtered(tag: string, answers: seq<string>): (records: seq<string>)
    ensures |records| <= |answers|
  {
    KeepMatches(a => ExtractVersioned(tag, a), answers)
  }

  /** Every record the fetchers return begins with the tag and spans no line. */
  lemma {:induction false} FilteredAllVersioned(tag: string, answers: seq<string>)
    ensures forall r | r in Filtered(tag, answers) :: Versioned(tag, r)
  {
    if answers != [] {
      ExtractedIsVersioned(tag, answers[0]);
      FilteredAllVersioned(tag, answers[1..]);
    }
  }

  /** Keeping distributes over concatenation: answer order is kept and no
      record is merged with or dropped in favour of another. */
  lemma {:induction false} KeepMatchesAppend(extract: string -> Option<string>, xs: seq<string>, ys: seq<string>)
    ensures KeepMatches(extract, xs + ys) == KeepMatches(extract, xs) + KeepMatches(extract, ys)
  {
    if xs == [] {
      assert xs + ys == ys;
    } else {
      assert (xs + ys)[0] == xs[0];
      assert (xs + ys)[1..] == xs[1..] + ys;
      KeepMatchesAppend(extract, xs[1..], ys);
    }
  }

  /** A record is in the result exactly when some answer's match yields it. */
  lemma {:induction false} KeepMatchesMembership(extract: string -> Option<string>, answers: seq<string>, g: string)
    ensures g in KeepMatches(extract, answers)
        <==> exists i | 0 <= i < |answers| :: extract(answers[i]) == Some(g)
  {
    if answers != [] {
      KeepMatchesMembership(extract, answers[1..], g);
      if exists i | 0 <= i < |answers[1..]| :: extract(answers[1..][i]) == Some(g) {
        var i :| 0 <= i < |answers[1..]| && extract(answers[1..][i]) == Some(g);
        assert extract(answers[i + 1]) == Some(g);
      }
      if exists i | 0 <= i < |answers| :: extract(answers[i]) == Some(g) {
        var i :| 0 <= i < |answers| && extract(answers[i]) == Some(g);
        if i > 0 {
          assert extract(answers[1..][i - 1]) == Some(g);
        }
      }
    }
  }

  /** One record per answer exactly when every answer matches; the records are
      then the answers' groups position by position, duplicates included. */
  lemma {:induction false} KeepMatchesAll(extract: string -> Option<string>, answers: seq<string>)
    ensures |KeepMatches(extract, answers)| == |answers|
        <==> forall i | 0 <= i < |answers| :: extract(answers[i]).Some?
    ensures (forall i | 0 <= i < |answers| :: extract(answers[i]).Some?)
        ==> forall i | 0 <= i < |answers| :: KeepMatches(extract, answers)[i] == extract(answers[i]).value
  {
    if answers != [] {
      KeepMatchesAll(extract, answers[1..]);
      assert forall i | 1 <= i < |answers| :: answers[i] == answers[1..][i - 1];
    }
  }

  /** No answer matches exactly when the result is empty. */
  lemma {:induction false} KeepMatchesNone(extract: string -> Option<string>, answers: seq<string>)
    ensures KeepMatches(extract, answers) == []
        <==> forall i | 0 <= i < |answers| :: extract(answers[i]).None?
  {
    if answers != [] {
      KeepMatchesNone(extract, answers[1..]);
      assert forall i | 1 <= i < |answers| :: answers[i] == answers[1..][i - 1];
    }
  }

  /** The loop every fetcher runs: append group 1 of each matching answer. */
  method CollectVersioned(tag: string, answers: seq<string>) returns (records: seq<string>)
    ensures records == Filtered(tag, answers)
  {
    ghost var extract := a => ExtractVersioned(tag, a);
    records := [];
    for i := 0 to |answers|
      invariant records == KeepMatches(extract, answers[..i])
    {
      var found := ExtractVersioned(tag, answers[i]);
      KeepOne(extract, answers[..i], answers[i]);
      assert answers[..i + 1] == answers[..i] + [answers[i]];
      if found.Some? {
        records := records + [found.value];
      }
    }
    assert answers[..|answers|] == answers;
  }

  /** One more answer adds its group, if it has one, at the end. */
  lemma KeepOne(extract: string -> Option<string>, done: seq<string>, a: string)
    ensures KeepMatches(extract, done + [a])
         == KeepMatches(extract, done) + (if extract(a).Some? then [extract(a).value] else [])
  {
    assert [a][1..] == [];
    KeepMatchesAppend(extract, done, [a]);
  }

  /** No space is needed after the tag: a longer version word is kept. */
  lemma TagNeedsNoSpace()
    ensures ExtractVersioned(SpfTag, "\"v=spf10 -all\"") == Some("v=spf10 -all")
  {
    var g := "v=spf10 -all";
    assert g[..|SpfTag|] == SpfTag;
    assert "\"" + g + "\"" == "\"v=spf10 -all\"";
    ExtractMatchesPattern(SpfTag, "\"v=spf10 -all\"", g);
  }

  /** The tag is compared case-sensitively. */
  lemma TagIsCaseSensitive()
    ensures ExtractVersioned(SpfTag, "\"V=SPF1 -all\"") == None
    ensures ExtractVersioned(DmarcTag, "\"v=dmarc1; p=none\"") == None
  {
    var a := "\"V=SPF1 -all\"";
    assert a[1..|SpfTag| + 1][0] != SpfTag[0];
    var b := "\"v=dmarc1; p=none\"";
    assert b[1..|DmarcTag| + 1][2] != DmarcTag[2];
  }

  /** At least one character must follow the tag. */
  lemma BareTagRejected()
    ensures ExtractVersioned(SpfTag, "\"v=spf1\"") == None
    ensures ExtractVersioned(DkimTag, "\"v=DKIM1\"") == None
  {
    assert |"\"v=spf1\""| < |SpfTag| + 3;
    assert |"\"v=DKIM1\""| < |DkimTag| + 3;
  }

  /** A multi-segment answer is kept whole, the inner  " "  included. */
  lemma SegmentsKeepInnerQuotes()
    ensures ExtractVersioned(DmarcTag, "\"v=DMARC1; p=none\" \"; pct=100\"")
         == Some("v=DMARC1; p=none\" \"; pct=100")
  {
    var g := "v=DMARC1; p=none\" \"; pct=100";
    assert g[..|DmarcTag|] == DmarcTag;
    assert '\n' !in g;
    assert "\"" + g + "\"" == "\"v=DMARC1; p=none\" \"; pct=100\"";
    ExtractMatchesPattern(DmarcTag, "\"v=DMARC1; p=none\" \"; pct=100\"", g);
  }

  /** A line feed inside the record defeats the match; one line feed at the very end does not. */
  lemma NewlineHandling()
    ensures ExtractVersioned(SpfTag, "\"v=spf1 a\n-all\"") == None
    ensures ExtractVersioned(SpfTag, "\"v=spf1 -all\"\n") == Some("v=spf1 -all")
  {
    var a := "\"v=spf1 a\n-all\"";
    assert a[|SpfTag| + 1..|a| - 1][2] == '\n';
    var g := "v=spf1 -all";
    assert g[..|SpfTag|] == SpfTag;
    assert '\n' !in g;
    assert "\"" + g + "\"\n" == "\"v=spf1 -all\"\n";
    ExtractMatchesPattern(SpfTag, "\"v=spf1 -all\"\n", g);
  }
}
