/** The short code shown by the client and typed into the browser (check 2). */
module UserCode {
  import opened Prelude
  import opened Encoding
  import opened Text

  const ALPHABET := "ABCDEFGHJKLMNPQRSTUVWXYZ23456789"

  function Normalize(s: string): string {
    Without(Without(ToUpper(TrimSpace(s)), '-'), ' ')
  }

  predicate CodesEqual(submitted: string, expected: string) {
    Normalize(submitted) == Normalize(expected)
  }

  // ----- what normalisation means ------------------------------------------

  predicate Ignored(c: char) { c == '-' || c == ' ' }

  /** Character by character: drop spaces and dashes, raise the rest. */
  function Squash(s: string): string {
    if s == "" then "" else Kept(s[0]) + Squash(s[1..])
  }

  function Kept(c: char): string {
    if Ignored(c) then "" else [Upper(c)]
  }

  /** The only white space in s is the space; so for letters, digits, spaces and dashes. */
  predicate Typed(s: string) {
    forall i | 0 <= i < |s| :: IsSpace(s[i]) ==> s[i] == ' '
  }

  lemma TypedConcat(a: string, b: string)
    ensures Typed(a + b) <==> Typed(a) && Typed(b)
  {
    if Typed(a + b) {
      forall i | 0 <= i < |a| ensures IsSpace(a[i]) ==> a[i] == ' ' { assert (a + b)[i] == a[i]; }
      forall i | 0 <= i < |b| ensures IsSpace(b[i]) ==> b[i] == ' ' { assert (a + b)[|a| + i] == b[i]; }
    }
  }

  lemma {:induction false} SquashConcat(a: string, b: string)
    ensures Squash(a + b) == Squash(a) + Squash(b)
  {
    if a == "" {
      assert a + b == b;
    } else {
      var (head, t) := (Kept(a[0]), a[1..]);
      SquashConcat(t, b);
      SquashCons(a[0], t + b);
      assert a + b == [a[0]] + (t + b);
      ConcatAssociates(head, Squash(t), Squash(b));
    }
  }

  lemma SquashCons(c: char, s: string)
    ensures Squash([c] + s) == Kept(c) + Squash(s)
  {
    assert ([c] + s)[1..] == s;
  }

  lemma {:induction false} SquashSteps(s: string)
    ensures Without(Without(ToUpper(s), '-'), ' ') == Squash(s)
  {
    if s != "" {
      SquashSteps(s[1..]);
      assert ToUpper(s)[1..] == ToUpper(s[1..]);
      if s[0] != '-' {
        var t := Without(ToUpper(s), '-');
        assert t[1..] == Without(ToUpper(s[1..]), '-');
      }
    }
  }

  lemma NormalizeIsSquash(s: string)
    ensures Normalize(s) == Squash(TrimSpace(s))
  {
    SquashSteps(TrimSpace(s));
  }

  // ----- idempotence, exactly ----------------------------------------------

  lemma {:induction false} SquashIsClean(s: string)
    ensures Squash(Squash(s)) == Squash(s) && |Squash(s)| <= |s|
  {
    if s != "" {
      SquashIsClean(s[1..]);
      if Ignored(s[0]) {
        assert Squash(s) == Squash(s[1..]);
      } else {
        assert Squash(s)[1..] == Squash(s[1..]);
      }
    }
  }

  /** Behind the dashes and spaces at this end of s, white space comes first. */
  predicate ExposesLeft(s: string) {
    s != "" && if Ignored(s[0]) then ExposesLeft(s[1..]) else IsSpace(s[0])
  }

  predicate ExposesRight(s: string) {
    s != "" && if Ignored(s[|s| - 1]) then ExposesRight(s[..|s| - 1]) else IsSpace(s[|s| - 1])
  }

  lemma {:induction false} ExposedLeft(s: string)
    ensures ExposesLeft(s) <==> Squash(s) != "" && IsSpace(Squash(s)[0])
  {
    if s != "" && Ignored(s[0]) {
      ExposedLeft(s[1..]);
    }
  }

  lemma SquashSnoc(s: string, c: char)
    ensures Squash(s + [c]) == Squash(s) + Kept(c)
  {
    SquashConcat(s, [c]);
    assert [c][1..] == "" && Kept(c) + "" == Kept(c);
  }

  lemma {:induction false} ExposedRight(s: string)
    ensures ExposesRight(s) <==> Squash(s) != "" && IsSpace(Squash(s)[|Squash(s)| - 1])
  {
    if s != "" {
      SquashSnoc(s[..|s| - 1], s[|s| - 1]);
      assert s == s[..|s| - 1] + [s[|s| - 1]];
      if Ignored(s[|s| - 1]) {
        ExposedRight(s[..|s| - 1]);
      }
    }
  }

  /** Normalising again changes a code exactly when dashes at an end of it hide white space, which
      trimming cannot reach the first time. */
  lemma NormalizeIdempotentExactly(s: string)
    ensures Normalize(Normalize(s)) == Normalize(s)
       <==> !ExposesLeft(TrimSpace(s)) && !ExposesRight(TrimSpace(s))
  {
    var t := Normalize(s);
    NormalizeIsSquash(s);
    NormalizeIsSquash(t);
    ExposedLeft(TrimSpace(s));
    ExposedRight(TrimSpace(s));
    SquashIsClean(TrimSpace(s));
    SquashIsClean(TrimSpace(t));
    LeadingTrimmed(t);
    TrailingTrimmed(TrimLeft(t));
    if t != "" && !IsSpace(t[0]) && !IsSpace(t[|t| - 1]) {
      assert TrimSpace(t) == t;
    }
  }

  // ----- concatenation, exactly --------------------------------------------

  predicate Blank(s: string) {
    forall i | 0 <= i < |s| :: s[i] == ' '
  }

  lemma {:induction false} SquashedWhite(s: string)
    requires forall i | 0 <= i < |s| :: IsSpace(s[i])
    ensures Squash(s) == "" <==> Blank(s)
  {
    if s != "" {
      SquashedWhite(s[1..]);
      if s[0] == ' ' && Blank(s[1..]) {
        forall i | 0 <= i < |s| ensures s[i] == ' ' { if i > 0 { assert s[i] == s[1..][i - 1]; } }
      }
    }
  }

  lemma TrimRightJoined(x: string, b: string)
    requires TrimSpace(b) != ""
    ensures TrimRight(x + b) == x + (Leading(b) + TrimSpace(b))
  {
    LeadingTrimmed(b);
    TrimRightConcat(Leading(b), TrimLeft(b));
    TrimRightConcat(x, b);
  }

  /** When neither side is white throughout, only the white space where they meet stays. */
  lemma TrimJoined(a: string, b: string)
    requires TrimSpace(a) != "" && TrimSpace(b) != ""
    ensures TrimSpace(a + b) == (TrimSpace(a) + (Trailing(a) + Leading(b))) + TrimSpace(b)
  {
    TrimmedEnds(a);
    TrimLeftConcat(a, b);
    TrimRightJoined(TrimLeft(a), b);
    TrailingOfTrimLeft(a);
    TrailingTrimmed(TrimLeft(a));
    ConcatAssociates(TrimSpace(a) + Trailing(a), Leading(b), TrimSpace(b));
    ConcatAssociates(TrimSpace(a), Trailing(a), Leading(b));
  }

  lemma NormalizeJoined(a: string, b: string)
    requires TrimSpace(a) != "" && TrimSpace(b) != ""
    ensures Normalize(a + b) == (Normalize(a) + (Squash(Trailing(a)) + Squash(Leading(b)))) + Normalize(b)
  {
    TrimJoined(a, b);
    SquashConcat(TrimSpace(a) + (Trailing(a) + Leading(b)), TrimSpace(b));
    SquashConcat(TrimSpace(a), Trailing(a) + Leading(b));
    SquashConcat(Trailing(a), Leading(b));
    NormalizeIsSquash(a);
    NormalizeIsSquash(b);
    NormalizeIsSquash(a + b);
  }

  /** Normalisation is a homomorphism of concatenation exactly where one side is white throughout,
      or no white space but spaces lies where the two meet. */
  lemma NormalizeConcatExactly(a: string, b: string)
    ensures Normalize(a + b) == Normalize(a) + Normalize(b)
       <==> TrimSpace(a) == "" || TrimSpace(b) == "" || (Blank(Trailing(a)) && Blank(Leading(b)))
  {
    TrimmedEnds(a);
    TrimmedEnds(b);
    TrimLeftConcat(a, b);
    if TrimLeft(a) == "" {
      assert Normalize(a) == "" by { NormalizeIsSquash(a); }
    } else if TrimLeft(b) == "" {
      assert Normalize(b) == "" by { NormalizeIsSquash(b); }
      assert TrimRight(b) == "" by { WhiteThroughout(b); }
      TrimRightConcat(TrimLeft(a), b);
    } else {
      NormalizeJoined(a, b);
      LeadingIsWhite(b);
      TrailingIsWhite(a);
      SquashedWhite(Leading(b));
      SquashedWhite(Trailing(a));
    }
  }

  // ----- one character more or another, exactly ----------------------------

  lemma TrimLeftAround(a: string, c: char, b: string)
    requires !IsSpace(c)
    ensures TrimLeft(a + ([c] + b)) == TrimLeft(a) + ([c] + b)
  {
    TrimLeftConcat(a, [c] + b);
    assert ([c] + b)[0] == c;
  }

  lemma TrimRightAround(x: string, c: char, b: string)
    requires !IsSpace(c)
    ensures TrimRight((x + [c]) + b) == (x + [c]) + TrimRight(b)
  {
    TrimRightConcat(x + [c], b);
    assert (x + [c])[|x|] == c;
  }

  lemma TrimAround(a: string, c: char, b: string)
    requires !IsSpace(c)
    ensures TrimSpace(a + [c] + b) == TrimLeft(a) + [c] + TrimRight(b)
  {
    ConcatAssociates(a, [c], b);
    TrimLeftAround(a, c, b);
    ConcatAssociates(TrimLeft(a), [c], b);
    TrimRightAround(TrimLeft(a), c, b);
  }

  lemma NormalizeAround(a: string, c: char, b: string)
    requires !IsSpace(c)
    ensures Normalize(a + [c] + b) == Squash(TrimLeft(a)) + Kept(c) + Squash(TrimRight(b))
  {
    TrimAround(a, c, b);
    NormalizeIsSquash(a + [c] + b);
    SquashConcat(TrimLeft(a) + [c], TrimRight(b));
    SquashSnoc(TrimLeft(a), c);
  }

  lemma NormalizeUnbroken(a: string, b: string)
    ensures Normalize(a + b) ==
      if TrimLeft(a) == "" then Normalize(b)
      else if TrimRight(b) == "" then Normalize(a)
      else Squash(TrimLeft(a)) + Squash(TrimRight(b))
  {
    TrimLeftConcat(a, b);
    TrimRightConcat(TrimLeft(a), b);
    SquashConcat(TrimLeft(a), TrimRight(b));
    NormalizeIsSquash(a + b);
    NormalizeIsSquash(a);
    NormalizeIsSquash(b);
  }

  /** A space makes no difference anywhere, in any text. */
  lemma SpaceIgnored(a: string, b: string)
    ensures CodesEqual(a + " " + b, a + b)
  {
    NormalizeUnbroken(a, b);
    NormalizeUnbroken(a + " ", b);
    NormalizeUnbroken(a, " ");
    assert " "[1..] == "" && " "[..0] == "";
    TrimLeftConcat(a, " ");
    SquashSnoc(TrimLeft(a), ' ');
    assert Squash(TrimLeft(a)) + "" == Squash(TrimLeft(a));
  }

  /** Only white space lies on one side of it, and on the other white space that is not all spaces,
      which it keeps from being trimmed. */
  predicate Shields(a: string, b: string) {
    || (TrimLeft(a) == "" && TrimLeft(b) != "" && !Blank(Leading(b)))
    || (TrimLeft(b) == "" && TrimLeft(a) != "" && !Blank(Trailing(a)))
  }

  lemma DashIgnoredExactly(a: string, b: string)
    ensures CodesEqual(a + "-" + b, a + b) <==> !Shields(a, b)
  {
    NormalizeAround(a, '-', b);
    NormalizeUnbroken(a, b);
    TrimmedEnds(a);
    TrimmedEnds(b);
    var (x, y) := (Squash(TrimLeft(a)), Squash(TrimRight(b)));
    assert x + "" + y == x + y;
    if TrimLeft(b) == "" {
      WhiteThroughout(b);
      assert x + "" == x;
      if TrimLeft(a) != "" { UntrimmedRight(a); }
    } else {
      assert "" + y == y;
      UntrimmedLeft(b);
    }
  }

  lemma UntrimmedLeft(b: string)
    requires TrimLeft(b) != ""
    ensures TrimRight(b) != "" && (Squash(TrimRight(b)) == Normalize(b) <==> Blank(Leading(b)))
  {
    TrimmedEnds(b);
    LeadingTrimmed(b);
    TrimRightConcat(Leading(b), TrimLeft(b));
    SquashConcat(Leading(b), TrimSpace(b));
    LeadingIsWhite(b);
    SquashedWhite(Leading(b));
    NormalizeIsSquash(b);
  }

  lemma UntrimmedRight(a: string)
    requires TrimLeft(a) != ""
    ensures Squash(TrimLeft(a)) == Normalize(a) <==> Blank(Trailing(a))
  {
    TrailingTrimmed(TrimLeft(a));
    TrailingOfTrimLeft(a);
    SquashConcat(TrimSpace(a), Trailing(a));
    TrailingIsWhite(a);
    SquashedWhite(Trailing(a));
    NormalizeIsSquash(a);
  }

  /** Another character in its place, neither being white space, makes none exactly if both are dashes
      or they are the same letter up to case. */
  lemma ReplacedExactly(a: string, c: char, d: char, b: string)
    requires !White(c) && !White(d)
    ensures CodesEqual(a + [c] + b, a + [d] + b)
       <==> (c == '-' && d == '-') || (c != '-' && d != '-' && SameLetter(c, d))
  {
    SpaceIsWhite(c);
    SpaceIsWhite(d);
    NormalizeAround(a, c, b);
    NormalizeAround(a, d, b);
    CaseOfLetter(c, d);
    var (x, y) := (Squash(TrimLeft(a)), Squash(TrimRight(b)));
    if Kept(c) != "" && Kept(d) != "" {
      assert (x + Kept(c) + y)[|x|] == Upper(c) && (x + Kept(d) + y)[|x|] == Upper(d);
    }
  }

  /** A small letter for its capital, or the other way round, is accepted anywhere in any text. */
  lemma CaseIgnored(a: string, c: char, d: char, b: string)
    requires CapitalOf(c, d)
    ensures CodesEqual(a + [c] + b, a + [d] + b)
  {
    ReplacedExactly(a, c, d, b);
  }

  lemma {:induction false} TrimLeftCaseBlind(a: string, b: string)
    requires SameUpToCase(a, b)
    ensures SameUpToCase(TrimLeft(a), TrimLeft(b))
  {
    if a != "" && IsSpace(a[0]) {
      assert SameLetter(a[0], b[0]);
      assert SameUpToCase(a[1..], b[1..]);
      TrimLeftCaseBlind(a[1..], b[1..]);
    } else if b != "" {
      assert SameLetter(a[0], b[0]);
    }
  }

  lemma {:induction false} TrimRightCaseBlind(a: string, b: string)
    requires SameUpToCase(a, b)
    ensures SameUpToCase(TrimRight(a), TrimRight(b))
  {
    if a != "" && IsSpace(a[|a| - 1]) {
      assert SameLetter(a[|a| - 1], b[|b| - 1]);
      TrimRightCaseBlind(a[..|a| - 1], b[..|b| - 1]);
    } else if b != "" {
      assert SameLetter(a[|a| - 1], b[|b| - 1]);
    }
  }

  lemma {:induction false} SquashCaseBlind(a: string, b: string)
    requires SameUpToCase(a, b)
    ensures Squash(a) == Squash(b)
  {
    if a != "" {
      CaseOfLetter(a[0], b[0]);
      assert SameLetter(a[0], b[0]) && SameUpToCase(a[1..], b[1..]);
      SquashCaseBlind(a[1..], b[1..]);
    }
  }

  /** So a code typed in any mixture of cases is accepted. */
  lemma AnyCaseAccepted(typed: string, code: string)
    requires SameUpToCase(typed, code)
    ensures CodesEqual(typed, code)
  {
    TrimLeftCaseBlind(typed, code);
    TrimRightCaseBlind(TrimLeft(typed), TrimLeft(code));
    SquashCaseBlind(TrimSpace(typed), TrimSpace(code));
    NormalizeIsSquash(typed);
    NormalizeIsSquash(code);
  }

  // ----- on typed text both laws hold --------------------------------------

  lemma {:induction false} TypedExposesNothing(s: string)
    requires Typed(s)
    ensures !ExposesLeft(s) && !ExposesRight(s)
  {
    if s != "" {
      TypedExposesNothing(s[1..]);
      TypedExposesNothing(s[..|s| - 1]);
    }
  }

  lemma TypedTrimmed(s: string)
    requires Typed(s)
    ensures Typed(TrimSpace(s)) && Blank(Leading(s)) && Blank(Trailing(s))
  {
    LeadingTrimmed(s);
    TrailingTrimmed(TrimLeft(s));
    TrailingTrimmed(s);
    LeadingIsWhite(s);
    TrailingIsWhite(s);
    TypedConcat(Leading(s), TrimLeft(s));
    TypedConcat(TrimSpace(s), Trailing(TrimLeft(s)));
    TypedConcat(TrimRight(s), Trailing(s));
  }

  lemma NormalizeIdempotent(s: string)
    requires Typed(s)
    ensures Normalize(Normalize(s)) == Normalize(s)
  {
    TypedTrimmed(s);
    TypedExposesNothing(TrimSpace(s));
    NormalizeIdempotentExactly(s);
  }

  lemma NormalizeConcat(a: string, b: string)
    requires Typed(a) && Typed(b)
    ensures Normalize(a + b) == Normalize(a) + Normalize(b)
  {
    TypedTrimmed(a);
    TypedTrimmed(b);
    NormalizeConcatExactly(a, b);
  }

  lemma TypedNormalizes(s: string)
    requires Typed(s)
    ensures Normalize(s) == Squash(s)
  {
    TypedTrimmed(s);
    var t := TrimLeft(s);
    LeadingTrimmed(s);
    LeadingIsWhite(s);
    TypedConcat(Leading(s), t);
    TypedTrimmed(t);
    TrailingTrimmed(t);
    TrailingIsWhite(t);
    SquashConcat(Leading(s), t);
    SquashConcat(TrimRight(t), Trailing(t));
    SquashedWhite(Leading(s));
    SquashedWhite(Trailing(t));
    NormalizeIsSquash(s);
  }

  /** Neither law holds once other white space is typed: trimming comes before dash removal. */
  lemma NormalizeNotIdempotent()
    ensures Normalize(Normalize("-\tA")) != Normalize("-\tA")
    ensures Normalize("A\t" + "B") != Normalize("A\t") + Normalize("B")
  {
    var s := "-\tA";
    assert s[1..] == "\tA";
    assert TrimSpace(s) == s && ExposesLeft(s);
    NormalizeIdempotentExactly(s);
    var t := "A\t";
    assert t[..1] == "A" && Trailing("A") == "";
    assert Trailing(t) == "\t" && Trailing(t)[0] != ' ';
    assert TrimSpace("A") == "A" && TrimSpace(t) == "A" && TrimSpace("B") == "B";
    NormalizeConcatExactly(t, "B");
  }

  /** In typed text, spaces and dashes anywhere, and the case of any letter, make no difference. */
  lemma CodesEqualIgnores(a: string, c: char, d: char, b: string)
    requires Typed(a + [c] + b) && Typed(a + [d] + b)
    ensures Ignored(c) ==> CodesEqual(a + [c] + b, a + b)
    ensures CodesEqual(a + [c] + b, a + [d] + b)
       <==> Ignored(c) == Ignored(d) && (Ignored(c) || SameLetter(c, d))
  {
    CaseOfLetter(c, d);
    SquashAround(a, c, b);
    SquashAround(a, d, b);
    TypedConcat(a + [c], b);
    TypedConcat(a, [c]);
    TypedConcat(a, b);
    TypedNormalizes(a + b);
    SquashConcat(a, b);
    var (x, y) := (Squash(a) + Kept(c) + Squash(b), Squash(a) + Kept(d) + Squash(b));
    if !Ignored(c) && !Ignored(d) {
      assert x[|Squash(a)|] == Upper(c) && y[|Squash(a)|] == Upper(d);
    }
  }

  lemma SquashAround(a: string, c: char, b: string)
    requires Typed(a + [c] + b)
    ensures Normalize(a + [c] + b) == Squash(a) + Kept(c) + Squash(b)
  {
    TypedNormalizes(a + [c] + b);
    SquashConcat(a + [c], b);
    SquashConcat(a, [c]);
    assert [c][1..] == "" && Squash([c]) == Kept(c) + Squash("");
    assert Kept(c) + "" == Kept(c);
  }

  // ----- generation --------------------------------------------------------

  /** The alphabet read off its runs of consecutive characters. */
  function Letter(v: int): char
    requires 0 <= v < 32
  {
    if v < 8 then ('A' as int + v) as char
    else if v < 13 then ('J' as int + v - 8) as char
    else if v < 24 then ('P' as int + v - 13) as char
    else ('2' as int + v - 24) as char
  }

  function Generated(raw: seq<Byte>): string
    requires |raw| == 8
  {
    var idx := seq(8, i requires 0 <= i < 8 => Letter(raw[i] % 32));
    idx[..4] + "-" + idx[4..]
  }

  lemma AlphabetLetter(v: int)
    requires 0 <= v < 32
    ensures |ALPHABET| == 32 && ALPHABET[v] == Letter(v)
  {
  }

  /** Fills an index buffer byte by byte; no randomness, no code. */
  method GenerateUserCode(random: Option<seq<Byte>>) returns (code: Option<string>)
    requires random.Some? ==> |random.value| == 8
    ensures code == if random.Some? then Some(Generated(random.value)) else None
  {
    if random.None? {
      return None;
    }
    var raw := random.value;
    var idx := new char[8](_ => '\0');
    for i := 0 to 8
      invariant forall k | 0 <= k < i :: idx[k] == Letter(raw[k] % 32)
    {
      AlphabetLetter(raw[i] % |ALPHABET|);
      idx[i] := ALPHABET[raw[i] % |ALPHABET|];
    }
    assert idx[..] == seq(8, i requires 0 <= i < 8 => Letter(raw[i] % 32));
    return Some(idx[..4] + "-" + idx[4..]);
  }

  lemma GeneratedNormalizes(raw: seq<Byte>)
    requires |raw| == 8
    ensures Normalize(Generated(raw)) == seq(8, i requires 0 <= i < 8 => Letter(raw[i] % 32))
  {
    var idx := seq(8, i requires 0 <= i < 8 => Letter(raw[i] % 32));
    assert Clean(idx);
    SquashDashed(idx[..4], idx[4..]);
    assert idx == idx[..4] + idx[4..];
  }

  /** Nothing to drop, raise or trim. */
  predicate Clean(s: string) {
    forall i | 0 <= i < |s| :: !Ignored(s[i]) && Upper(s[i]) == s[i] && !IsSpace(s[i])
  }

  lemma SquashDashed(a: string, b: string)
    requires Clean(a) && Clean(b)
    ensures Normalize(a + "-" + b) == a + b
  {
    TypedConcat(a, "-");
    TypedConcat(a + "-", b);
    SquashAround(a, '-', b);
    SquashLetters(a);
    SquashLetters(b);
  }

  lemma {:induction false} SquashLetters(s: string)
    requires Clean(s)
    ensures Squash(s) == s
  {
    if s != "" {
      SquashLetters(s[1..]);
    }
  }

  /** Two generated codes match exactly when their random bytes agree modulo 32 throughout:
      32^8 codes in all. */
  lemma GeneratedCodesEqual(x: seq<Byte>, y: seq<Byte>)
    requires |x| == |y| == 8
    ensures CodesEqual(Generated(x), Generated(y))
       <==> forall i | 0 <= i < 8 :: x[i] % 32 == y[i] % 32
  {
    GeneratedNormalizes(x);
    GeneratedNormalizes(y);
    var (p, q) := (Normalize(Generated(x)), Normalize(Generated(y)));
    if p == q {
      forall i | 0 <= i < 8 ensures x[i] % 32 == y[i] % 32 {
        assert p[i] == Letter(x[i] % 32) && q[i] == Letter(y[i] % 32);
      }
    }
  }
}
