/**
 * Normalisation of the interactive input of daud.py before an auditor is built:
 * the comma-separated selector string becomes a list of selector names and the
 * DKIM record type is upper-cased.
 */
module SelectorInput {

  /** `s.replace(", ", ",")`: scanning left to right without overlap, each
      comma followed by a space becomes a bare comma. */
  function ReplaceCommaSpace(s: string): (r: string)
    ensures |r| <= |s|
  {
    if |s| >= 2 && s[0] == ',' && s[1] == ' ' then "," + ReplaceCommaSpace(s[2..])
    else if s == [] then ""
    else [s[0]] + ReplaceCommaSpace(s[1..])
  }

  /** Replacing removes spaces only: the number of commas is unchanged. */
  lemma {:induction false} ReplaceKeepsCommas(s: string)
    ensures multiset(ReplaceCommaSpace(s))[','] == multiset(s)[',']
  {
    if |s| >= 2 && s[0] == ',' && s[1] == ' ' {
      ReplaceKeepsCommas(s[2..]);
      assert s == [','] + [' '] + s[2..];
    } else if s != [] {
      ReplaceKeepsCommas(s[1..]);
      assert s == [s[0]] + s[1..];
    }
  }

  /** Somewhere in `s` a comma is directly followed by a space. */
  predicate HasCommaSpace(s: string) {
    exists i | 0 <= i < |s| - 1 :: s[i] == ',' && s[i + 1] == ' '
  }

  /** The reverse spacing: every comma of `s` gets a space after it. */
  function SpaceAfterCommas(s: string): string {
    if s == [] then ""
    else if s[0] == ',' then ", " + SpaceAfterCommas(s[1..])
    else [s[0]] + SpaceAfterCommas(s[1..])
  }

  /** Replacing undoes the spacing of a comma-separated list, whatever it holds. */
  lemma {:induction false} ReplaceUndoesSpacing(s: string)
    ensures ReplaceCommaSpace(SpaceAfterCommas(s)) == s
  {
    if s != [] {
      var t := SpaceAfterCommas(s);
      ReplaceUndoesSpacing(s[1..]);
      if s[0] == ',' {
        assert t[2..] == SpaceAfterCommas(s[1..]);
      } else {
        assert t[1..] == SpaceAfterCommas(s[1..]);
      }
      assert s == [s[0]] + s[1..];
    }
  }

  /** The text is left unchanged exactly when it holds no comma-space. */
  lemma {:induction false} ReplaceFixesIff(s: string)
    ensures ReplaceCommaSpace(s) == s <==> !HasCommaSpace(s)
  {
    if HasCommaSpace(s) {
      ReplaceShortens(s);
    } else {
      ReplaceKeepsPlain(s);
    }
  }

  lemma {:induction false} ReplaceShortens(s: string)
    requires HasCommaSpace(s)
    ensures |ReplaceCommaSpace(s)| < |s|
  {
    if !(|s| >= 2 && s[0] == ',' && s[1] == ' ') {
      var i :| 0 <= i < |s| - 1 && s[i] == ',' && s[i + 1] == ' ';
      assert s[1..][i - 1] == ',' && s[1..][i] == ' ';
      ReplaceShortens(s[1..]);
    }
  }

  lemma {:induction false} ReplaceKeepsPlain(s: string)
    requires !HasCommaSpace(s)
    ensures ReplaceCommaSpace(s) == s
  {
    if s != [] {
      ReplaceKeepsPlain(s[1..]);
      assert s == [s[0]] + s[1..];
    }
  }

  /** `s.split(",")`: the pieces between commas, so the empty string gives one empty piece. */
  function SplitOnComma(s: string): (parts: seq<string>)
    ensures |parts| >= 1
  {
    if s == [] then [""]
    else
      var tail := SplitOnComma(s[1..]);
      if s[0] == ',' then [""] + tail
      else [[s[0]] + tail[0]] + tail[1..]
  }

  /** There is one piece more than there are commas. */
  lemma {:induction false} SplitCount(s: string)
    ensures |SplitOnComma(s)| == multiset(s)[','] + 1
  {
    if s != [] {
      SplitCount(s[1..]);
      assert s == [s[0]] + s[1..];
    }
  }

  /** No piece holds a comma. */
  lemma {:induction false} SplitNoComma(s: string)
    ensures forall p | p in SplitOnComma(s) :: ',' !in p
  {
    if s != [] {
      SplitNoComma(s[1..]);
      var tail := SplitOnComma(s[1..]);
      if s[0] != ',' {
        assert tail[0] in tail;
        assert forall p | p in tail[1..] :: p in tail;
      }
    }
  }

  /** `",".join(parts)`. */
  function JoinWithComma(parts: seq<string>): string {
    if parts == [] then ""
    else if |parts| == 1 then parts[0]
    else parts[0] + "," + JoinWithComma(parts[1..])
  }

  /** Joining the pieces with commas gives back the split text. */
  lemma {:induction false} JoinSplit(s: string)
    ensures JoinWithComma(SplitOnComma(s)) == s
  {
    if s != [] {
      JoinSplit(s[1..]);
      if s[0] == ',' {
        JoinAfterComma(s);
      } else {
        JoinAfterChar(s);
      }
    }
  }

  lemma JoinAfterComma(s: string)
    requires s != [] && s[0] == ','
    requires JoinWithComma(SplitOnComma(s[1..])) == s[1..]
    ensures JoinWithComma(SplitOnComma(s)) == s
  {
    var tail := SplitOnComma(s[1..]);
    assert SplitOnComma(s) == [""] + tail;
    assert ([""] + tail)[1..] == tail;
    assert JoinWithComma([""] + tail) == "" + "," + JoinWithComma(tail);
    assert s == [s[0]] + s[1..];
  }

  lemma JoinAfterChar(s: string)
    requires s != [] && s[0] != ','
    requires JoinWithComma(SplitOnComma(s[1..])) == s[1..]
    ensures JoinWithComma(SplitOnComma(s)) == s
  {
    var tail := SplitOnComma(s[1..]);
    assert SplitOnComma(s) == [[s[0]] + tail[0]] + tail[1..];
    JoinPrependChar(s[0], tail);
    assert s == [s[0]] + s[1..];
  }

  /** A character put in front of the first piece lands in front of the joined text. */
  lemma JoinPrependChar(c: char, parts: seq<string>)
    requires |parts| >= 1
    ensures JoinWithComma([[c] + parts[0]] + parts[1..]) == [c] + JoinWithComma(parts)
  {
    var moved := [[c] + parts[0]] + parts[1..];
    if |parts| > 1 {
      assert moved[1..] == parts[1..];
    }
  }

  /** A comma-free piece followed by a comma splits off as the first piece. */
  lemma {:induction false} SplitPieceThenComma(p: string, rest: string)
    requires ',' !in p
    ensures SplitOnComma(p + "," + rest) == [p] + SplitOnComma(rest)
  {
    if p == [] {
      assert p + "," + rest == [','] + rest;
      assert ([','] + rest)[1..] == rest;
    } else {
      SplitPieceThenComma(p[1..], rest);
      assert (p + "," + rest)[1..] == p[1..] + "," + rest;
      assert p == [p[0]] + p[1..];
    }
  }

  /** A comma-free text is a single piece. */
  lemma {:induction false} SplitPlain(p: string)
    requires ',' !in p
    ensures SplitOnComma(p) == [p]
  {
    if p != [] {
      SplitPlain(p[1..]);
      assert p == [p[0]] + p[1..];
    }
  }

  /** Splitting a comma-joined list of comma-free pieces gives the pieces back. */
  lemma {:induction false} SplitJoin(parts: seq<string>)
    requires parts != []
    requires forall p | p in parts :: ',' !in p
    ensures SplitOnComma(JoinWithComma(parts)) == parts
  {
    if |parts| == 1 {
      SplitPlain(parts[0]);
    } else {
      SplitJoin(parts[1..]);
      SplitPieceThenComma(parts[0], JoinWithComma(parts[1..]));
    }
  }

  /** ASCII upper-casing of one character. */
  function UpperChar(c: char): char {
    if 'a' <= c <= 'z' then (c as int - 32) as char else c
  }

  /** `s.upper()`, restricted to the ASCII letters. */
  function UpperAscii(s: string): (r: string)
    ensures |r| == |s|
    ensures forall i | 0 <= i < |r| :: !('a' <= r[i] <= 'z')
    ensures forall i | 0 <= i < |s| :: 'a' <= s[i] <= 'z' ==> r[i] as int == s[i] as int - 32
    ensures forall i | 0 <= i < |s| :: !('a' <= s[i] <= 'z') ==> r[i] == s[i]
  {
    seq(|s|, i requires 0 <= i < |s| => UpperChar(s[i]))
  }

  /** Upper-casing twice is upper-casing once. */
  lemma UpperIdempotent(s: string)
    ensures UpperAscii(UpperAscii(s)) == UpperAscii(s)
  {
  }

  /** Any spelling of "txt" queries the TXT type. */
  lemma UpperTxt()
    ensures UpperAscii("txt") == "TXT" && UpperAscii("Txt") == "TXT" && UpperAscii("TXT") == "TXT"
  {
  }

  /** The selector list daud.py hands to the auditor: never empty, no name holds
      a comma, and joined with commas it is the input after comma-space removal. */
  function NormaliseSelectors(selectorsString: string): (selectors: seq<string>)
    ensures |selectors| == multiset(selectorsString)[','] + 1
    ensures forall p | p in selectors :: ',' !in p
    ensures JoinWithComma(selectors) == ReplaceCommaSpace(selectorsString)
  {
    JoinSplit(ReplaceCommaSpace(selectorsString));
    SplitCount(ReplaceCommaSpace(selectorsString));
    SplitNoComma(ReplaceCommaSpace(selectorsString));
    ReplaceKeepsCommas(selectorsString);
    SplitOnComma(ReplaceCommaSpace(selectorsString))
  }

  /** An empty answer to the selector prompt is one empty selector, not an empty list. */
  lemma EmptyInputIsOneEmptySelector()
    ensures NormaliseSelectors("") == [""]
  {
  }

  /** A comma-space at the junction of two texts becomes a comma, and the two
      sides are rewritten independently of each other. */
  lemma {:induction false} ReplaceAtJunction(a: string, b: string)
    ensures ReplaceCommaSpace(a + ", " + b) == ReplaceCommaSpace(a) + "," + ReplaceCommaSpace(b)
  {
    if a == [] {
      JunctionAtStart(b);
      assert a + ", " + b == ", " + b;
    } else if |a| >= 2 && a[0] == ',' && a[1] == ' ' {
      ReplaceAtJunction(a[2..], b);
      JunctionAfterPair(a, b);
    } else {
      ReplaceAtJunction(a[1..], b);
      JunctionAfterChar(a, b);
    }
  }

  lemma JunctionAtStart(b: string)
    ensures ReplaceCommaSpace(", " + b) == "," + ReplaceCommaSpace(b)
  {
    assert (", " + b)[2..] == b;
  }

  lemma JunctionAfterPair(a: string, b: string)
    requires |a| >= 2 && a[0] == ',' && a[1] == ' '
    requires ReplaceCommaSpace(a[2..] + ", " + b) == ReplaceCommaSpace(a[2..]) + "," + ReplaceCommaSpace(b)
    ensures ReplaceCommaSpace(a + ", " + b) == ReplaceCommaSpace(a) + "," + ReplaceCommaSpace(b)
  {
    var s := a + ", " + b;
    assert s[0] == ',' && s[1] == ' ';
    assert s[2..] == a[2..] + ", " + b;
    assert ReplaceCommaSpace(s) == "," + ReplaceCommaSpace(a[2..] + ", " + b);
  }

  lemma JunctionAfterChar(a: string, b: string)
    requires a != [] && !(|a| >= 2 && a[0] == ',' && a[1] == ' ')
    requires ReplaceCommaSpace(a[1..] + ", " + b) == ReplaceCommaSpace(a[1..]) + "," + ReplaceCommaSpace(b)
    ensures ReplaceCommaSpace(a + ", " + b) == ReplaceCommaSpace(a) + "," + ReplaceCommaSpace(b)
  {
    var s := a + ", " + b;
    assert s[0] == a[0];
    assert s[1] == (if |a| >= 2 then a[1] else ',');
    assert s[1..] == a[1..] + ", " + b;
    assert ReplaceCommaSpace(s) == [a[0]] + ReplaceCommaSpace(a[1..] + ", " + b);
  }

  /** Two comma-free names typed as "a, b" become the list [a, b]. */
  lemma SelectorPairSplits(a: string, b: string)
    requires ',' !in a && ',' !in b
    ensures NormaliseSelectors(a + ", " + b) == [a, b]
  {
    ReplaceAtJunction(a, b);
    ReplaceKeepsPlain(a);
    ReplaceKeepsPlain(b);
    SplitPieceThenComma(a, b);
    SplitPlain(b);
  }

  /** A comma-and-space separated answer yields the bare names. */
  lemma SpacedListSplits()
    ensures NormaliseSelectors("selector1, selector2") == ["selector1", "selector2"]
  {
    assert "selector1, selector2" == "selector1" + ", " + "selector2";
    SelectorPairSplits("selector1", "selector2");
  }

  /** Only one space after each comma is removed: a second one stays in the name. */
  lemma DoubleSpaceKept()
    ensures NormaliseSelectors("a,  b") == ["a", " b"]
  {
    assert "a,  b" == "a" + ", " + " b";
    SelectorPairSplits("a", " b");
  }
}
