/**
 `titleCase` (src/utils/title-case.ts): the maximal runs of ASCII letters of
 the input, each with its first letter upper-cased and the rest lower-cased,
 concatenated without a separator. Everything that is not an ASCII letter is
 dropped and only separates words.
 */
module Casing {
  import opened Wrappers
  import opened Text

  /** A character matched by the case-insensitive class `[a-z]`. */
  predicate IsLetter(c: char) {
    'a' <= c <= 'z' || 'A' <= c <= 'Z'
  }

  /** `toUpperCase` restricted to ASCII: only `a`..`z` change. */
  function Upper(c: char): char {
    if 'a' <= c <= 'z' then (c as int - 32) as char else c
  }

  /** `toLowerCase` restricted to ASCII: only `A`..`Z` change. */
  function Lower(c: char): char {
    if 'A' <= c <= 'Z' then (c as int + 32) as char else c
  }

  function LowerAll(w: string): (r: string)
    ensures |r| == |w|
    ensures forall k :: 0 <= k < |w| ==> r[k] == Lower(w[k])
  {
    seq(|w|, k requires 0 <= k < |w| => Lower(w[k]))
  }

  /** `word.charAt(0).toUpperCase() + word.substring(1).toLowerCase()` */
  function Capitalize(w: string): string {
    if |w| == 0 then "" else [Upper(w[0])] + LowerAll(w[1..])
  }

  /** Length of the run of letters at the start of `s`. */
  function LetterRun(s: string): (n: nat)
    ensures n <= |s|
    ensures forall k :: 0 <= k < n ==> IsLetter(s[k])
    ensures n < |s| ==> !IsLetter(s[n])
  {
    if |s| == 0 || !IsLetter(s[0]) then 0 else 1 + LetterRun(s[1..])
  }

  /** `str.match(/[a-z]+/gi) || []`: the maximal letter runs, in input order. */
  function Words(s: string): (ws: seq<string>)
    ensures forall i :: 0 <= i < |ws| ==> |ws[i]| > 0
    ensures forall i, k :: 0 <= i < |ws| && 0 <= k < |ws[i]| ==> IsLetter(ws[i][k])
    decreases |s|
  {
    if |s| == 0 then []
    else if !IsLetter(s[0]) then Words(s[1..])
    else
      var n := LetterRun(s);
      [s[..n]] + Words(s[n..])
  }

  /** `titleCase(str)` */
  function TitleCase(s: string): string {
    var ws := Words(s);
    Join(seq(|ws|, i requires 0 <= i < |ws| => Capitalize(ws[i])), "")
  }

  /** `titleCase(v)` where `v` may be `undefined`: the default parameter turns it into "". */
  function TitleCaseOrEmpty(v: Option<string>): string {
    TitleCase(v.GetOr(""))
  }

  /** Number of letters in `s`. */
  function LetterCount(s: string): nat {
    if |s| == 0 then 0 else (if IsLetter(s[0]) then 1 else 0) + LetterCount(s[1..])
  }

  /**
   Reference definition, one character at a time: a letter is upper-cased
   when it opens a run (nothing or a non-letter before it) and lower-cased
   when it continues one; every other character is dropped.
   */
  function TitleCaseFrom(s: string, afterLetter: bool): (r: string)
    ensures |r| == LetterCount(s)
    ensures forall k :: 0 <= k < |r| ==> IsLetter(r[k])
    decreases |s|
  {
    if |s| == 0 then ""
    else if IsLetter(s[0]) then
      [if afterLetter then Lower(s[0]) else Upper(s[0])] + TitleCaseFrom(s[1..], true)
    else TitleCaseFrom(s[1..], false)
  }

  /** One step of the reference definition. */
  lemma CharwiseCons(c: char, t: string, afterLetter: bool)
    ensures IsLetter(c) ==>
              TitleCaseFrom([c] + t, afterLetter) == [if afterLetter then Lower(c) else Upper(c)] + TitleCaseFrom(t, true)
    ensures !IsLetter(c) ==> TitleCaseFrom([c] + t, afterLetter) == TitleCaseFrom(t, false)
  {
    assert ([c] + t)[0] == c;
    assert ([c] + t)[1..] == t;
  }

  lemma LowerAllCons(w: string)
    requires |w| > 0
    ensures LowerAll(w) == [Lower(w[0])] + LowerAll(w[1..])
  {
  }

  /** Inside a run, every letter is lower-cased. */
  lemma {:induction false} LowerRun(w: string, t: string)
    requires forall k :: 0 <= k < |w| ==> IsLetter(w[k])
    ensures TitleCaseFrom(w + t, true) == LowerAll(w) + TitleCaseFrom(t, true)
    decreases |w|
  {
    if |w| == 0 {
      assert w + t == t;
    } else {
      assert w + t == [w[0]] + (w[1..] + t);
      CharwiseCons(w[0], w[1..] + t, true);
      LowerRun(w[1..], t);
      LowerAllCons(w);
    }
  }

  /** The word-based definition agrees with the character-wise reference. */
  lemma {:induction false} TitleCaseCharwise(s: string)
    ensures TitleCase(s) == TitleCaseFrom(s, false)
    decreases |s|
  {
    if |s| == 0 {
    } else if !IsLetter(s[0]) {
      TitleCaseCharwise(s[1..]);
    } else {
      var n := LetterRun(s);
      var tail := s[n..];
      TitleCaseCharwise(tail);
      assert s[1..] == s[1..n] + tail;
      LowerRun(s[1..n], tail);
      assert s[..n][1..] == s[1..n];
      assert Capitalize(s[..n]) == [Upper(s[0])] + LowerAll(s[1..n]);
      // After the run, `tail` is empty or starts with a non-letter.
      assert TitleCaseFrom(tail, true) == TitleCaseFrom(tail, false);
      var ws := Words(tail);
      var caps := seq(|ws|, i requires 0 <= i < |ws| => Capitalize(ws[i]));
      var all := [s[..n]] + ws;
      assert Words(s) == all;
      var allCaps := seq(|all|, i requires 0 <= i < |all| => Capitalize(all[i]));
      assert allCaps == [Capitalize(s[..n])] + caps;
      ConcatAppend([Capitalize(s[..n])], caps);
    }
  }

  /** The output consists of ASCII letters only, one per input letter. */
  lemma TitleCaseLetters(s: string)
    ensures forall k :: 0 <= k < |TitleCase(s)| ==> IsLetter(TitleCase(s)[k])
    ensures |TitleCase(s)| == LetterCount(s)
  {
    TitleCaseCharwise(s);
  }

  lemma {:induction false} LetterCountBound(s: string)
    ensures LetterCount(s) <= |s|
    ensures LetterCount(s) == 0 <==> forall k :: 0 <= k < |s| ==> !IsLetter(s[k])
    decreases |s|
  {
    if |s| > 0 {
      LetterCountBound(s[1..]);
      if LetterCount(s) == 0 {
        forall k | 0 <= k < |s| ensures !IsLetter(s[k]) {
          if k > 0 { assert s[k] == s[1..][k - 1]; }
        }
      } else if !IsLetter(s[0]) {
        var k :| 0 <= k < |s[1..]| && IsLetter(s[1..][k]);
        assert IsLetter(s[k + 1]);
      }
    }
  }

  /** The output is never longer than the input, and is empty exactly when the input has no letter. */
  lemma TitleCaseSize(s: string)
    ensures |TitleCase(s)| <= |s|
    ensures TitleCase(s) == "" <==> forall k :: 0 <= k < |s| ==> !IsLetter(s[k])
  {
    TitleCaseLetters(s);
    LetterCountBound(s);
  }

  /** A word-opening letter followed by the rest of its run. */
  lemma {:induction false} OpenRun(c: char, w: string, t: string)
    requires IsLetter(c)
    requires forall k :: 0 <= k < |w| ==> IsLetter(w[k])
    requires |t| == 0 || !IsLetter(t[0])
    ensures TitleCaseFrom([c] + w + t, false) == [Upper(c)] + LowerAll(w) + TitleCaseFrom(t, false)
  {
    var s := [c] + w + t;
    assert s[0] == c;
    assert s[1..] == w + t;
    LowerRun(w, t);
  }

  lemma LowerAllLowercase(w: string)
    requires forall k :: 0 <= k < |w| ==> 'a' <= w[k] <= 'z'
    ensures LowerAll(w) == w
  {
  }

  lemma HeaderCharwise()
    ensures TitleCaseFrom("-header", false) == "Header"
  {
    LowerAllLowercase("eader");
    OpenRun('h', "eader", "");
    assert "header" == ['h'] + "eader" + "";
    var h := "-header";
    assert h[0] == '-';
    assert h[1..] == "header";
  }

  lemma MainHeaderOpens()
    ensures TitleCaseFrom(['m'] + "ain" + "-header", false)
         == [Upper('m')] + LowerAll("ain") + TitleCaseFrom("-header", false)
  {
    var t := "-header";
    assert t[0] == '-';
    OpenRun('m', "ain", t);
  }

  lemma MainHeaderParts(s: string, t: string)
    requires t == "-header" && s == ['m'] + "ain" + t
    ensures TitleCaseFrom(s, false) == "MainHeader"
  {
    MainHeaderOpens();
    HeaderCharwise();
    LowerAllLowercase("ain");
  }

  /** Separators only separate: "main-header" becomes "MainHeader". */
  lemma TitleCaseMainHeader()
    ensures TitleCase("main-header") == "MainHeader"
  {
    MainHeaderWord("main-header");
  }

  lemma MainHeaderWord(s: string)
    requires s == "main-header"
    ensures TitleCase(s) == "MainHeader"
  {
    TitleCaseCharwise(s);
    MainHeaderParts(s, "-header");
  }

  lemma TitleCaseUser()
    ensures TitleCase("user") == "User"
  {
    TitleCaseCharwise("user");
    LowerAllLowercase("ser");
    OpenRun('u', "ser", "");
    assert "user" == ['u'] + "ser" + "";
  }

  lemma TitleCaseTag()
    ensures TitleCase("tag") == "Tag"
  {
    TitleCaseCharwise("tag");
    LowerAllLowercase("ag");
    OpenRun('t', "ag", "");
    assert "tag" == ['t'] + "ag" + "";
  }

  lemma TitleCaseRole()
    ensures TitleCase("role") == "Role"
  {
    TitleCaseCharwise("role");
    LowerAllLowercase("ole");
    OpenRun('r', "ole", "");
    assert "role" == ['r'] + "ole" + "";
  }
}
