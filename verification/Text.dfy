/** The string operations of Go's standard library that the broker's checks rest on. */
module Text {
  lemma ConcatAssociates(a: string, b: string, c: string)
    ensures a + (b + c) == (a + b) + c
  {
  }

  /** Unicode white space. */
  predicate IsSpace(c: char) {
    var u := c as int;
    9 <= u <= 13 || u == 32 || u == 0x85 || u == 0xA0 || u == 0x1680 || 0x2000 <= u <= 0x200A
    || u == 0x2028 || u == 0x2029 || u == 0x202F || u == 0x205F || u == 0x3000
  }

  function TrimLeft(s: string): string {
    if s != "" && IsSpace(s[0]) then TrimLeft(s[1..]) else s
  }

  function TrimRight(s: string): string {
    if s != "" && IsSpace(s[|s| - 1]) then TrimRight(s[..|s| - 1]) else s
  }

  function TrimSpace(s: string): string {
    TrimRight(TrimLeft(s))
  }

  /** Case of ASCII letters; other characters are left alone. */
  function Upper(c: char): char {
    if 'a' <= c <= 'z' then (c as int - 'a' as int + 'A' as int) as char else c
  }

  function Lower(c: char): char {
    if 'A' <= c <= 'Z' then (c as int - 'A' as int + 'a' as int) as char else c
  }

  function ToUpper(s: string): string {
    if s == "" then "" else [Upper(s[0])] + ToUpper(s[1..])
  }

  function ToLower(s: string): string {
    if s == "" then "" else [Lower(s[0])] + ToLower(s[1..])
  }

  /** s without the character c. */
  function Without(s: string, c: char): string {
    if s == "" then ""
    else if s[0] == c then Without(s[1..], c)
    else [s[0]] + Without(s[1..], c)
  }

  /** The pieces between commas: one more piece than there are commas. */
  function Split(s: string): (pieces: seq<string>)
    ensures pieces != []
  {
    if s == "" then [""] else Extend(s[0], Split(s[1..]))
  }

  /** One more character in front: a comma opens a new piece. */
  function Extend(c: char, pieces: seq<string>): (extended: seq<string>)
    requires pieces != []
    ensures extended != []
  {
    if c == ',' then [""] + pieces else [[c] + pieces[0]] + pieces[1..]
  }

  function Join(pieces: seq<string>): string
    requires pieces != []
  {
    if |pieces| == 1 then pieces[0] else pieces[0] + "," + Join(pieces[1..])
  }

  /** Split cuts at every comma and loses nothing. */
  lemma {:induction false} JoinSplit(s: string)
    ensures Join(Split(s)) == s
    ensures forall piece | piece in Split(s) :: ',' !in piece
  {
    if s != "" {
      JoinSplit(s[1..]);
      JoinExtend(s[0], Split(s[1..]));
    }
  }

  lemma JoinExtend(c: char, pieces: seq<string>)
    requires pieces != []
    ensures Join(Extend(c, pieces)) == [c] + Join(pieces)
  {
    if c == ',' {
      assert Extend(c, pieces)[1..] == pieces;
    } else {
      assert Extend(c, pieces)[1..] == pieces[1..];
    }
  }

  lemma ExtendConcat(c: char, x: seq<string>, y: seq<string>)
    requires x != []
    ensures Extend(c, x + y) == Extend(c, x) + y
  {
    if c != ',' {
      assert (x + y)[0] == x[0] && (x + y)[1..] == x[1..] + y;
    }
  }

  lemma {:induction false} SplitConcat(a: string, b: string)
    ensures Split(a + "," + b) == Split(a) + Split(b)
  {
    var s := a + "," + b;
    if a == "" {
      assert s[0] == ',' && s[1..] == b;
    } else {
      var t := a[1..];
      assert s[0] == a[0] && s[1..] == t + "," + b;
      SplitConcat(t, b);
      ExtendConcat(a[0], Split(t), Split(b));
    }
  }

  // ----- what trimming takes off -------------------------------------------

  function Leading(s: string): string {
    if s != "" && IsSpace(s[0]) then [s[0]] + Leading(s[1..]) else ""
  }

  function Trailing(s: string): string {
    if s != "" && IsSpace(s[|s| - 1]) then Trailing(s[..|s| - 1]) + [s[|s| - 1]] else ""
  }

  lemma {:induction false} LeadingTrimmed(s: string)
    ensures Leading(s) + TrimLeft(s) == s
    ensures TrimLeft(s) != "" ==> !IsSpace(TrimLeft(s)[0])
  {
    if s != "" && IsSpace(s[0]) {
      LeadingTrimmed(s[1..]);
    }
  }

  lemma {:induction false} TrailingTrimmed(s: string)
    ensures TrimRight(s) + Trailing(s) == s
    ensures TrimRight(s) != "" ==> !IsSpace(TrimRight(s)[|TrimRight(s)| - 1])
  {
    if s != "" && IsSpace(s[|s| - 1]) {
      TrailingTrimmed(s[..|s| - 1]);
    }
  }

  lemma {:induction false} TrimLeftConcat(a: string, b: string)
    ensures TrimLeft(a + b) == if TrimLeft(a) == "" then TrimLeft(b) else TrimLeft(a) + b
  {
    if a == "" {
      assert a + b == b;
    } else if IsSpace(a[0]) {
      assert (a + b)[1..] == a[1..] + b;
      TrimLeftConcat(a[1..], b);
    }
  }

  lemma {:induction false} TrimRightConcat(a: string, b: string)
    ensures TrimRight(a + b) == if TrimRight(b) == "" then TrimRight(a) else a + TrimRight(b)
  {
    if b == "" {
      assert a + b == a;
    } else if IsSpace(b[|b| - 1]) {
      assert (a + b)[..|a + b| - 1] == a + b[..|b| - 1];
      TrimRightConcat(a, b[..|b| - 1]);
    }
  }

  /** Both ends of a trimmed text, if there are any, are not white space. */
  lemma TrimmedEnds(s: string)
    ensures var t := TrimSpace(s); t != "" ==> !IsSpace(t[0]) && !IsSpace(t[|t| - 1])
    ensures TrimSpace(s) == "" <==> TrimLeft(s) == ""
  {
    var t := TrimLeft(s);
    LeadingTrimmed(s);
    TrailingTrimmed(t);
    if t != "" {
      TrimRightKeepsHead(t);
    }
  }

  lemma {:induction false} TrimRightKeepsHead(t: string)
    requires t != "" && !IsSpace(t[0])
    ensures TrimRight(t) != "" && TrimRight(t)[0] == t[0]
  {
    if IsSpace(t[|t| - 1]) {
      TrimRightKeepsHead(t[..|t| - 1]);
    }
  }

  lemma {:induction false} LeadingIsWhite(s: string)
    ensures forall i | 0 <= i < |Leading(s)| :: IsSpace(Leading(s)[i])
  {
    if s != "" && IsSpace(s[0]) {
      LeadingIsWhite(s[1..]);
    }
  }

  lemma {:induction false} TrailingIsWhite(s: string)
    ensures forall i | 0 <= i < |Trailing(s)| :: IsSpace(Trailing(s)[i])
  {
    if s != "" && IsSpace(s[|s| - 1]) {
      TrailingIsWhite(s[..|s| - 1]);
    }
  }

  lemma {:induction false} TrailingOfTrimLeft(s: string)
    requires TrimLeft(s) != ""
    ensures Trailing(TrimLeft(s)) == Trailing(s)
  {
    if IsSpace(s[0]) {
      TrailingOfTail(s);
      TrailingOfTrimLeft(s[1..]);
    }
  }

  lemma {:induction false} TrailingOfTail(s: string)
    requires s != "" && TrimLeft(s[1..]) != ""
    ensures Trailing(s) == Trailing(s[1..])
  {
    if |s| > 1 && IsSpace(s[|s| - 1]) {
      var t := s[..|s| - 1];
      assert t[1..] == s[1..][..|s| - 2];
      assert s[1..] == t[1..] + [s[|s| - 1]];
      TrimLeftConcat(t[1..], [s[|s| - 1]]);
      assert [s[|s| - 1]][1..] == "";
      TrailingOfTail(t);
    }
  }

  lemma {:induction false} WhiteTrimsAway(s: string)
    requires forall i | 0 <= i < |s| :: IsSpace(s[i])
    ensures TrimRight(s) == ""
  {
    if s != "" {
      WhiteTrimsAway(s[..|s| - 1]);
    }
  }

  lemma WhiteThroughout(s: string)
    requires TrimLeft(s) == ""
    ensures TrimRight(s) == ""
  {
    LeadingTrimmed(s);
    LeadingIsWhite(s);
    WhiteTrimsAway(s);
  }


  // ----- what white space, trimming and case are, from outside --------------

  /** The code points of white space, one by one. */
  const WHITE: seq<int> := [
    0x09, 0x0A, 0x0B, 0x0C, 0x0D, 0x20, 0x85, 0xA0, 0x1680,
    0x2000, 0x2001, 0x2002, 0x2003, 0x2004, 0x2005, 0x2006, 0x2007, 0x2008, 0x2009, 0x200A,
    0x2028, 0x2029, 0x202F, 0x205F, 0x3000]

  predicate White(c: char) {
    c as int in WHITE
  }

  lemma SpaceIsWhite(c: char)
    ensures IsSpace(c) <==> White(c)
  {
  }

  predicate AllWhite(s: string) {
    forall i | 0 <= i < |s| :: White(s[i])
  }

  /** s is core between outer white space; core is empty or neither begins nor ends with any. */
  predicate HasCore(s: string, before: string, core: string, after: string) {
    && s == before + core + after && AllWhite(before) && AllWhite(after)
    && (core != "" ==> !White(core[0]) && !White(core[|core| - 1]))
  }

  lemma AllWhiteIsSpace(s: string)
    ensures AllWhite(s) <==> forall i | 0 <= i < |s| :: IsSpace(s[i])
  {
    forall i | 0 <= i < |s| ensures IsSpace(s[i]) <==> White(s[i]) { SpaceIsWhite(s[i]); }
  }

  lemma TrimLeftCore(before: string, rest: string)
    requires AllWhite(before) && (rest != "" ==> !White(rest[0]))
    ensures TrimLeft(before + rest) == rest
  {
    AllWhiteIsSpace(before);
    WhiteTrimsLeft(before);
    TrimLeftConcat(before, rest);
    if rest != "" { SpaceIsWhite(rest[0]); }
  }

  lemma TrimRightCore(core: string, after: string)
    requires AllWhite(after) && (core != "" ==> !White(core[|core| - 1]))
    ensures TrimRight(core + after) == core
  {
    AllWhiteIsSpace(after);
    WhiteTrimsAway(after);
    TrimRightConcat(core, after);
    if core != "" { SpaceIsWhite(core[|core| - 1]); }
  }

  /** Trimming takes off the outer white space and nothing else. */
  lemma TrimSpaceIsCore(s: string, before: string, core: string, after: string)
    requires HasCore(s, before, core, after)
    ensures TrimSpace(s) == core
  {
    if core == "" {
      assert s == (before + after) + "" && AllWhite(before + after);
      TrimLeftCore(before + after, "");
    } else {
      assert (core + after)[0] == core[0];
      ConcatAssociates(before, core, after);
      TrimLeftCore(before, core + after);
      TrimRightCore(core, after);
    }
  }

  lemma {:induction false} WhiteTrimsLeft(s: string)
    requires forall i | 0 <= i < |s| :: IsSpace(s[i])
    ensures TrimLeft(s) == ""
  {
    if s != "" {
      WhiteTrimsLeft(s[1..]);
    }
  }

  lemma CoreExists(s: string) returns (before: string, core: string, after: string)
    ensures HasCore(s, before, core, after)
  {
    before, core := Leading(s), TrimSpace(s);
    after := Trailing(TrimLeft(s));
    LeadingTrimmed(s);
    TrailingTrimmed(TrimLeft(s));
    LeadingIsWhite(s);
    TrailingIsWhite(TrimLeft(s));
    AllWhiteIsSpace(before);
    AllWhiteIsSpace(after);
    TrimmedEnds(s);
    assert s == before + (core + after) == before + core + after;
    if core != "" {
      SpaceIsWhite(core[0]);
      SpaceIsWhite(core[|core| - 1]);
    }
  }

  /** c is a small letter and d the capital of it. */
  predicate CapitalOf(c: char, d: char) {
    'a' <= c <= 'z' && d as int == c as int - 32
  }

  predicate SameLetter(c: char, d: char) {
    c == d || CapitalOf(c, d) || CapitalOf(d, c)
  }

  predicate SameUpToCase(a: string, b: string) {
    |a| == |b| && forall i | 0 <= i < |a| :: SameLetter(a[i], b[i])
  }

  lemma CaseOfLetter(c: char, d: char)
    ensures Upper(c) == Upper(d) <==> SameLetter(c, d)
    ensures Lower(c) == Lower(d) <==> SameLetter(c, d)
  {
  }

  lemma {:induction false} LowerIsCaseBlind(a: string, b: string)
    ensures ToLower(a) == ToLower(b) <==> SameUpToCase(a, b)
  {
    if a != "" && b != "" {
      CaseOfLetter(a[0], b[0]);
      LowerIsCaseBlind(a[1..], b[1..]);
      assert ToLower(a)[0] == Lower(a[0]) && ToLower(a)[1..] == ToLower(a[1..]);
      assert ToLower(b)[0] == Lower(b[0]) && ToLower(b)[1..] == ToLower(b[1..]);
      if SameUpToCase(a, b) {
        assert forall i | 0 <= i < |a| - 1 :: a[1..][i] == a[i + 1] && b[1..][i] == b[i + 1];
      } else if SameLetter(a[0], b[0]) && SameUpToCase(a[1..], b[1..]) {
        forall i | 0 <= i < |a| ensures SameLetter(a[i], b[i]) {
          if i > 0 { assert a[i] == a[1..][i - 1] && b[i] == b[1..][i - 1]; }
        }
      }
    }
  }
}
