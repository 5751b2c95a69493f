/** The tag tokeniser `tags.trim().split(/\s+/)` of the posts routes, written out
    over a fixed set of white-space characters. */
module Tokenize {

  /** The characters that ECMAScript's `\s` and `String.prototype.trim` treat as
      white space (its WhiteSpace and LineTerminator productions): tab, line
      feed, vertical tab, form feed, carriage return, space, no-break space,
      the Unicode space separators, line and paragraph separator, and the
      byte order mark. */
  predicate IsWhitespace(c: char) {
    var x := c as int;
    || 0x09 <= x <= 0x0D
    || x == 0x20 || x == 0xA0 || x == 0x1680
    || 0x2000 <= x <= 0x200A
    || x == 0x2028 || x == 0x2029 || x == 0x202F || x == 0x205F
    || x == 0x3000 || x == 0xFEFF
  }

  predicate NoWhitespace(s: string) {
    forall k :: 0 <= k < |s| ==> !IsWhitespace(s[k])
  }

  predicate AllWhitespace(s: string) {
    forall k :: 0 <= k < |s| ==> IsWhitespace(s[k])
  }

  /** `trimStart`: drops the leading white space and nothing else. */
  function TrimStart(s: string): (r: string)
    ensures |r| <= |s| && r == s[|s| - |r|..]
    ensures AllWhitespace(s[..|s| - |r|])
    ensures r == [] || !IsWhitespace(r[0])
  {
    if s != [] && IsWhitespace(s[0]) then
      var r := TrimStart(s[1..]);
      var n := |s| - |r|;
      assert s[..n] == [s[0]] + s[1..][..n - 1];
      assert s[n..] == s[1..][n - 1..];
      r
    else
      s
  }

  /** `trimEnd`: drops the trailing white space and nothing else. */
  function TrimEnd(s: string): (r: string)
    ensures |r| <= |s| && r == s[..|r|]
    ensures AllWhitespace(s[|r|..])
    ensures r == [] || !IsWhitespace(r[|r| - 1])
  {
    if s != [] && IsWhitespace(s[|s| - 1]) then
      var r := TrimEnd(s[..|s| - 1]);
      assert s[|r|..] == s[..|s| - 1][|r|..] + [s[|s| - 1]];
      r
    else
      s
  }

  /** `trim`: cuts the leading and the trailing white space. */
  function Trim(s: string): (r: string)
    ensures |r| <= |s|
    ensures r == [] <==> AllWhitespace(s)
    ensures r != [] ==> !IsWhitespace(r[0]) && !IsWhitespace(r[|r| - 1])
  {
    var t := TrimStart(s);
    var r := TrimEnd(t);
    if r == [] then
      assert t == [];
      assert s[..|s| - |t|] == s;
      r
    else
      assert !AllWhitespace(s) by { assert s[|s| - |t|] == t[0] == r[0]; }
      r
  }

  /** What `trim` keeps is one contiguous slice of its input, and what it cuts
      on either side is white space. */
  lemma TrimIsSlice(s: string)
    ensures exists i :: 0 <= i <= |s| - |Trim(s)| && Trim(s) == s[i..i + |Trim(s)|]
                        && AllWhitespace(s[..i]) && AllWhitespace(s[i + |Trim(s)|..])
  {
    var t := TrimStart(s);
    var r := TrimEnd(t);
    var i := |s| - |t|;
    assert Trim(s) == r;
    assert t == s[i..];
    assert r == t[..|r|];
    assert s[i + |r|..] == t[|r|..];
    assert 0 <= i <= |s| - |r| && r == s[i..i + |r|] && AllWhitespace(s[..i]) && AllWhitespace(s[i + |r|..]);
  }

  lemma TrimKeepsTrimmed(s: string)
    requires s != [] && !IsWhitespace(s[0]) && !IsWhitespace(s[|s| - 1])
    ensures Trim(s) == s
  {
    assert TrimStart(s) == s;
  }

  /** `s.split(/\s+/)`: the pieces between maximal runs of white space, read
      from the right. A non-white-space character extends the first piece, the
      last character of a white-space run opens a new (empty) first piece, and
      the other characters of the run add nothing. */
  function SplitWs(s: string): (r: seq<string>)
    ensures |r| >= 1
    ensures r[0] == [] <==> s == [] || IsWhitespace(s[0])
  {
    if s == [] then [[]]
    else
      var rest := SplitWs(s[1..]);
      if !IsWhitespace(s[0]) then [[s[0]] + rest[0]] + rest[1..]
      else if s[1..] != [] && IsWhitespace(s[1]) then rest
      else [[]] + rest
  }

  /** No piece of a split holds white space. */
  lemma {:induction false} SplitPiecesHaveNoWhitespace(s: string)
    ensures forall piece :: piece in SplitWs(s) ==> NoWhitespace(piece)
  {
    if s != [] {
      var rest := SplitWs(s[1..]);
      SplitPiecesHaveNoWhitespace(s[1..]);
      if !IsWhitespace(s[0]) {
        assert rest == [rest[0]] + rest[1..];
        assert NoWhitespace(rest[0]);
      }
    }
  }

  /** Only a white-space run at the very end can leave an empty piece after the
      first one. */
  lemma {:induction false} SplitInnerPiecesNonEmpty(s: string)
    requires s == [] || !IsWhitespace(s[|s| - 1])
    ensures [] !in SplitWs(s)[1..]
  {
    if s != [] {
      var rest := SplitWs(s[1..]);
      if s[1..] == [] {
        assert rest == [[]];
      } else {
        assert s[1..][|s[1..]| - 1] == s[|s| - 1];
        SplitInnerPiecesNonEmpty(s[1..]);
        if IsWhitespace(s[0]) && !IsWhitespace(s[1]) {
          assert rest == [rest[0]] + rest[1..];
        }
      }
    }
  }

  /** The pieces joined with single spaces: `pieces.join(" ")`. */
  function Join(pieces: seq<string>): string {
    if pieces == [] then []
    else if |pieces| == 1 then pieces[0]
    else pieces[0] + " " + Join(pieces[1..])
  }

  /** An independent description of a split followed by a join: every maximal
      run of white space becomes one space. A white-space character followed
      by another is dropped; the last one of a run becomes a space. */
  function Collapse(s: string): string {
    if s == [] then []
    else if !IsWhitespace(s[0]) then [s[0]] + Collapse(s[1..])
    else if s[1..] != [] && IsWhitespace(s[1]) then Collapse(s[1..])
    else " " + Collapse(s[1..])
  }

  lemma JoinExtendFirst(c: char, pieces: seq<string>)
    requires |pieces| >= 1
    ensures Join([[c] + pieces[0]] + pieces[1..]) == [c] + Join(pieces)
  {
    var p := [[c] + pieces[0]] + pieces[1..];
    if |pieces| > 1 {
      assert p[1..] == pieces[1..];
    }
  }

  /** Splitting on white-space runs and joining with single spaces gives the
      input with every white-space run collapsed to one space. */
  lemma {:induction false} JoinSplitIsCollapse(s: string)
    ensures Join(SplitWs(s)) == Collapse(s)
  {
    if s != [] {
      var rest := SplitWs(s[1..]);
      JoinSplitIsCollapse(s[1..]);
      if !IsWhitespace(s[0]) {
        JoinExtendFirst(s[0], rest);
      } else if !(s[1..] != [] && IsWhitespace(s[1])) {
        assert ([[]] + rest)[1..] == rest;
      }
    }
  }

  lemma SplitAtToken(s: string)
    requires s != [] && !IsWhitespace(s[0])
    ensures SplitWs(s) == [[s[0]] + SplitWs(s[1..])[0]] + SplitWs(s[1..])[1..]
  {
  }

  lemma SplitAtGapEnd(s: string)
    requires s != [] && IsWhitespace(s[0]) && (s[1..] == [] || !IsWhitespace(s[1]))
    ensures SplitWs(s) == [[]] + SplitWs(s[1..])
  {
  }

  lemma {:induction false} SplitWithTokenPrefix(a: string, x: string)
    requires NoWhitespace(a)
    ensures SplitWs(a + x) == [a + SplitWs(x)[0]] + SplitWs(x)[1..]
    decreases |a|
  {
    var pieces := SplitWs(x);
    if a != [] {
      var ax := a + x;
      assert ax[1..] == a[1..] + x;
      assert ax[0] == a[0];
      SplitAtToken(ax);
      SplitWithTokenPrefix(a[1..], x);
      var rest := SplitWs(a[1..] + x);
      assert rest[0] == a[1..] + pieces[0] && rest[1..] == pieces[1..];
      assert [a[0]] + (a[1..] + pieces[0]) == a + pieces[0];
    } else {
      assert a + x == x && a + pieces[0] == pieces[0];
      assert pieces == [pieces[0]] + pieces[1..];
    }
  }

  /** Joining well-formed tokens with single spaces and splitting again gives the
      tokens back. */
  lemma {:induction false} SplitJoinRoundTrip(tokens: seq<string>)
    requires |tokens| >= 1
    requires forall k :: 0 <= k < |tokens| ==> tokens[k] != [] && NoWhitespace(tokens[k])
    ensures SplitWs(Join(tokens)) == tokens
  {
    var a := tokens[0];
    if |tokens| == 1 {
      SplitWithTokenPrefix(a, []);
      assert SplitWs([]) == [[]];
      assert a + [] == a;
    } else {
      var rest := tokens[1..];
      var j := Join(rest);
      SplitJoinRoundTrip(rest);
      JoinStartsWithFirst(rest);
      assert j[0] == j[..|rest[0]|][0] == rest[0][0];
      assert !IsWhitespace(j[0]);
      var x := " " + j;
      assert x[1..] == j && x[1] == j[0];
      SplitAtGapEnd(x);
      var pieces := SplitWs(x);
      assert pieces[0] == [] && pieces[1..] == tokens[1..];
      SplitWithTokenPrefix(a, x);
      assert Join(tokens) == a + " " + j == a + x;
      assert a + pieces[0] == a;
      assert tokens == [a] + tokens[1..];
    }
  }

  lemma {:induction false} JoinStartsWithFirst(pieces: seq<string>)
    requires |pieces| >= 1
    ensures |Join(pieces)| >= |pieces[0]| && Join(pieces)[..|pieces[0]|] == pieces[0]
  {
  }

  /** The tag list `tags.trim().split(/\s+/)`. */
  function Tags(input: string): (r: seq<string>)
    ensures |r| >= 1
    ensures Join(r) == Collapse(Trim(input))
    ensures !AllWhitespace(input) ==> forall tag :: tag in r ==> tag != [] && NoWhitespace(tag)
    ensures AllWhitespace(input) ==> r == [[]]
  {
    var t := Trim(input);
    var r := SplitWs(t);
    JoinSplitIsCollapse(t);
    SplitOfTrimmed(t);
    assert AllWhitespace(input) <==> t == [];
    r
  }

  /** Splitting a string that neither starts nor ends with white space gives
      non-empty pieces free of white space. */
  lemma SplitOfTrimmed(t: string)
    requires t == [] || (!IsWhitespace(t[0]) && !IsWhitespace(t[|t| - 1]))
    ensures t == [] ==> SplitWs(t) == [[]]
    ensures t != [] ==> forall piece :: piece in SplitWs(t) ==> piece != [] && NoWhitespace(piece)
  {
    var pieces := SplitWs(t);
    SplitPiecesHaveNoWhitespace(t);
    SplitInnerPiecesNonEmpty(t);
    assert pieces == [pieces[0]] + pieces[1..];
  }

  /** A run of white space between tags does not produce an empty tag. */
  lemma TagsExampleDoubleSpace(input: string)
    requires input == "a  b c"
    ensures Tags(input) == ["a", "b", "c"]
  {
    TrimKeepsTrimmed(input);
    var gap := input[1..];
    assert gap[1..] == " b c" && gap[1..][1..] == "b c";
    SplitJoinRoundTrip(["b", "c"]);
    assert Join(["b", "c"]) == "b c";
    assert SplitWs(gap) == SplitWs(gap[1..]) == [[]] + SplitWs("b c");
    var pieces := SplitWs(gap);
    assert pieces == ["", "b", "c"];
    SplitWithTokenPrefix("a", gap);
    assert "a" + gap == input;
    assert "a" + pieces[0] == "a" && pieces[1..] == ["b", "c"];
  }

  lemma TagsExampleSingleSpace(input: string)
    requires input == "x y"
    ensures Tags(input) == ["x", "y"]
  {
    TrimKeepsTrimmed(input);
    SplitJoinRoundTrip(["x", "y"]);
    assert Join(["x", "y"]) == input;
  }
}
