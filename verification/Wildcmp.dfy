/** doctest's wildcard matcher: a loop with one saved backtracking point decides the recursive glob relation. */
module Wildcmp {

  /** The characters of a C string lie before its first terminator, and the buffer ends with it. */
  predicate CString(buf: seq<char>) {
    |buf| > 0 && buf[|buf| - 1] == '\0' && forall i :: 0 <= i < |buf| - 1 ==> buf[i] != '\0'
  }

  function Text(buf: seq<char>): seq<char>
    requires CString(buf)
  {
    buf[..|buf| - 1]
  }

  /** tolower in the "C" locale. */
  function ToLower(c: char): char { if 'A' <= c <= 'Z' then c - 'A' + 'a' else c }

  predicate SameChar(w: char, c: char, caseSensitive: bool) {
    if caseSensitive then w == c else ToLower(w) == ToLower(c)
  }

  /** The glob relation: `*` stands for any text, `?` for any character, anything else for itself. */
  predicate Glob(wild: seq<char>, text: seq<char>, cs: bool)
    decreases |wild| + |text|
  {
    if wild == [] then text == []
    else if wild[0] == '*' then Glob(wild[1..], text, cs) || (text != [] && Glob(wild, text[1..], cs))
    else text != [] && (SameChar(wild[0], text[0], cs) || wild[0] == '?') && Glob(wild[1..], text[1..], cs)
  }

  // ---- what the relation means, character by character ----

  predicate NoStars(wild: seq<char>) { forall i :: 0 <= i < |wild| ==> wild[i] != '*' }

  /** A pattern without stars against a text: the same length, and at every position a `?`, the same character, or,
      without case sensitivity, the other case of the same letter. */
  predicate Spelled(wild: seq<char>, text: seq<char>, caseSensitive: bool) {
    && |wild| == |text|
    && forall i :: 0 <= i < |wild| ==>
         || wild[i] == '?' || wild[i] == text[i]
         || (!caseSensitive && 'A' <= wild[i] <= 'Z' && 'a' <= text[i] <= 'z' && text[i] as int == wild[i] as int + 32)
         || (!caseSensitive && 'a' <= wild[i] <= 'z' && 'A' <= text[i] <= 'Z' && wild[i] as int == text[i] as int + 32)
  }

  lemma {:induction false} WithoutStars(wild: seq<char>, text: seq<char>, cs: bool)
    requires NoStars(wild)
    ensures Glob(wild, text, cs) <==> Spelled(wild, text, cs)
    decreases |wild|
  {
    if wild != [] && text != [] {
      var w, t := wild[1..], text[1..];
      WithoutStars(w, t, cs);
      assert Spelled(wild, text, cs) ==> Spelled(w, t, cs) by {
        assert forall i :: 0 <= i < |w| ==> w[i] == wild[i + 1];
        assert forall i :: 0 <= i < |t| ==> t[i] == text[i + 1];
      }
      if Glob(wild, text, cs) {
        forall i | 1 <= i < |wild| ensures wild[i] == w[i - 1] && text[i] == t[i - 1] {}
      }
    }
  }

  /** With case sensitivity, a pattern without wildcards matches itself and nothing else. */
  lemma LiteralMatchesItself(wild: seq<char>, text: seq<char>)
    requires NoStars(wild) && forall i :: 0 <= i < |wild| ==> wild[i] != '?'
    ensures Glob(wild, text, true) <==> wild == text
  {
    WithoutStars(wild, text, true);
  }

  /** n question marks match the texts of length n. */
  lemma QuestionMarks(wild: seq<char>, text: seq<char>, cs: bool)
    requires forall i :: 0 <= i < |wild| ==> wild[i] == '?'
    ensures Glob(wild, text, cs) <==> |text| == |wild|
  {
    WithoutStars(wild, text, cs);
  }

  /** A star stands for any text: what comes before the first star is spelled at the front, and what comes after it
      matches some rest of the text. */
  lemma {:induction false} FirstStar(before: seq<char>, after: seq<char>, text: seq<char>, cs: bool)
    requires NoStars(before)
    ensures Glob(before + ['*'] + after, text, cs)
      <==> exists k :: |before| <= k <= |text| && Spelled(before, text[..|before|], cs) && Glob(after, text[k..], cs)
    decreases |before| + |text|
  {
    var wild := before + ['*'] + after;
    if before == [] {
      assert wild == ['*'] + after;
      StarTakes(after, text, cs);
    } else {
      assert wild[1..] == before[1..] + ['*'] + after;
      if text != [] {
        FirstStar(before[1..], after, text[1..], cs);
        OneMore(before, after, text, cs);
      }
    }
  }

  lemma {:induction false} StarTakes(after: seq<char>, text: seq<char>, cs: bool)
    ensures Glob(['*'] + after, text, cs) <==> exists k :: 0 <= k <= |text| && Glob(after, text[k..], cs)
    decreases |text|
  {
    var wild := ['*'] + after;
    assert wild[1..] == after && text[0..] == text;
    if text != [] {
      var rest := text[1..];
      StarTakes(after, rest, cs);
      assert forall k :: 0 <= k <= |rest| ==> rest[k..] == text[k + 1..];
      if k :| 1 <= k <= |text| && Glob(after, text[k..], cs) { assert rest[k - 1..] == text[k..]; }
    }
  }

  /** One more character in front of the first star. */
  lemma OneMore(before: seq<char>, after: seq<char>, text: seq<char>, cs: bool)
    requires before != [] && text != [] && before[0] != '*' && NoStars(before)
    ensures (SameChar(before[0], text[0], cs) || before[0] == '?')
            && (exists k :: |before[1..]| <= k <= |text[1..]|
                  && Spelled(before[1..], text[1..][..|before[1..]|], cs) && Glob(after, text[1..][k..], cs))
      <==> exists k :: |before| <= k <= |text| && Spelled(before, text[..|before|], cs) && Glob(after, text[k..], cs)
  {
    var b, t := before[1..], text[1..];
    if |before| <= |text| {
      var front := text[..|before|];
      assert front[1..] == t[..|b|] && front[0] == text[0];
      WithoutStars(before, front, cs);
      WithoutStars(b, t[..|b|], cs);
    }
    forall k | 0 <= k <= |t| ensures t[k..] == text[k + 1..] {}
    if k :| |before| <= k <= |text| && Spelled(before, text[..|before|], cs) && Glob(after, text[k..], cs) {
      assert t[k - 1..] == text[k..];
    }
  }

  // ---- the relation at positions of the two buffers ----

  predicate At(wild: seq<char>, w: nat, str: seq<char>, s: nat, cs: bool)
    requires CString(wild) && CString(str) && w < |wild| && s < |str|
  {
    Glob(Text(wild)[w..], Text(str)[s..], cs)
  }

  /** One step of the relation, in terms of the characters the loop reads. */
  lemma AtStep(wild: seq<char>, w: nat, str: seq<char>, s: nat, cs: bool)
    requires CString(wild) && CString(str) && w < |wild| && s < |str|
    ensures wild[w] == '\0' ==> (At(wild, w, str, s, cs) <==> str[s] == '\0')
    ensures wild[w] == '*' ==>
      (At(wild, w, str, s, cs) <==>
         At(wild, w + 1, str, s, cs) || (str[s] != '\0' && At(wild, w, str, s + 1, cs)))
    ensures wild[w] != '\0' && wild[w] != '*' && str[s] == '\0' ==> !At(wild, w, str, s, cs)
    ensures wild[w] != '\0' && wild[w] != '*' && str[s] != '\0' ==>
      (At(wild, w, str, s, cs) <==>
         (SameChar(wild[w], str[s], cs) || wild[w] == '?') && At(wild, w + 1, str, s + 1, cs))
  {
    var p, t := Text(wild)[w..], Text(str)[s..];
    if wild[w] != '\0' { assert p[0] == wild[w] && p[1..] == Text(wild)[w + 1..]; }
    if str[s] != '\0' { assert t[0] == str[s] && t[1..] == Text(str)[s + 1..]; }
  }

  /** Some restart position from `from` on lets the pattern at w match. */
  ghost predicate Later(wild: seq<char>, w: nat, str: seq<char>, from: nat, cs: bool)
    requires CString(wild) && CString(str) && w < |wild|
  {
    exists k: nat :: from <= k < |str| && At(wild, w, str, k, cs)
  }

  /** A star absorbs any number of characters. */
  lemma {:induction false} StarIsLater(wild: seq<char>, w: nat, str: seq<char>, s: nat, cs: bool)
    requires CString(wild) && CString(str) && w < |wild| && s < |str| && wild[w] == '*'
    ensures At(wild, w, str, s, cs) <==> Later(wild, w + 1, str, s, cs)
    decreases |str| - s
  {
    AtStep(wild, w, str, s, cs);
    if str[s] != '\0' {
      StarIsLater(wild, w, str, s + 1, cs);
    } else {
      assert s == |str| - 1;
    }
  }

  /** The pattern from m to w has no star, so each of its characters takes exactly one character of text. */
  predicate Literal(wild: seq<char>, m: nat, w: nat)
    requires m <= w < |wild|
  {
    forall i :: m <= i < w ==> wild[i] != '*' && wild[i] != '\0'
  }

  lemma {:induction false} LiteralShift(wild: seq<char>, m: nat, w: nat, str: seq<char>, k: nat, cs: bool)
    requires CString(wild) && CString(str) && m <= w < |wild| && k < |str| && Literal(wild, m, w)
    requires At(wild, m, str, k, cs)
    ensures k + (w - m) < |str| && At(wild, w, str, k + (w - m), cs)
    decreases w - m
  {
    if m < w {
      AtStep(wild, m, str, k, cs);
      LiteralShift(wild, m + 1, w, str, k + 1, cs);
    }
  }

  /** Restarting later is useless once the next star is reached: what it could do, that star can do. */
  lemma GreedyStar(wild: seq<char>, m: nat, w: nat, str: seq<char>, k0: nat, s: nat, cs: bool)
    requires CString(wild) && CString(str) && m <= w < |wild| && Literal(wild, m, w) && wild[w] == '*'
    requires k0 < |str| && s == k0 + (w - m) && s < |str|
    ensures Later(wild, m, str, k0 + 1, cs) ==> At(wild, w, str, s, cs)
  {
    if Later(wild, m, str, k0 + 1, cs) {
      var k: nat :| k0 + 1 <= k < |str| && At(wild, m, str, k, cs);
      LiteralShift(wild, m, w, str, k, cs);
      StarIsLater(wild, w, str, k + (w - m), cs);
      StarIsLater(wild, w, str, s, cs);
    }
  }

  /** Restarting later is useless at the end of the text: too little text is left. */
  lemma NoLaterAtEnd(wild: seq<char>, m: nat, w: nat, str: seq<char>, k0: nat, cs: bool)
    requires CString(wild) && CString(str) && m <= w < |wild| && Literal(wild, m, w)
    requires k0 + (w - m) == |str| - 1
    ensures !Later(wild, m, str, k0 + 1, cs)
  {
    if Later(wild, m, str, k0 + 1, cs) {
      var k: nat :| k0 + 1 <= k < |str| && At(wild, m, str, k, cs);
      LiteralShift(wild, m, w, str, k, cs);
    }
  }

  /** The loop's position after a star: `mp` follows the last star, the text restarts before `cp`, and the pattern
      between mp and w has matched so far. The whole match succeeds from here or from a later restart. */
  ghost predicate Searching(wild: seq<char>, w: nat, mp: nat, str: seq<char>, s: nat, cp: nat, cs: bool, goal: bool)
    requires CString(wild) && CString(str)
  {
    && 0 < mp <= w < |wild| && Literal(wild, mp, w) && wild[mp] != '\0'
    && 0 < cp && s == cp - 1 + (w - mp) && s < |str|
    && (goal <==> At(wild, w, str, s, cs) || Later(wild, mp, str, cp, cs))
  }

  lemma NewStar(wild: seq<char>, w: nat, str: seq<char>, s: nat, cs: bool, goal: bool)
    requires CString(wild) && CString(str) && w < |wild| && s < |str| - 1 && wild[w] == '*'
    requires goal <==> At(wild, w, str, s, cs)
    ensures wild[w + 1] == '\0' ==> goal
    ensures wild[w + 1] != '\0' ==> Searching(wild, w + 1, w + 1, str, s, s + 1, cs, goal)
  {
    StarIsLater(wild, w, str, s, cs);
    AtStep(wild, w + 1, str, |str| - 1, cs);
  }

  lemma NextStar(wild: seq<char>, w: nat, mp: nat, str: seq<char>, s: nat, cp: nat, cs: bool, goal: bool)
    requires CString(wild) && CString(str) && Searching(wild, w, mp, str, s, cp, cs, goal) && wild[w] == '*'
    ensures goal <==> At(wild, w, str, s, cs)
  {
    GreedyStar(wild, mp, w, str, cp - 1, s, cs);
  }

  lemma Advance(wild: seq<char>, w: nat, mp: nat, str: seq<char>, s: nat, cp: nat, cs: bool, goal: bool)
    requires CString(wild) && CString(str) && Searching(wild, w, mp, str, s, cp, cs, goal)
    requires wild[w] != '*' && str[s] != '\0' && (SameChar(wild[w], str[s], cs) || wild[w] == '?')
    requires wild[w] != '\0'
    ensures Searching(wild, w + 1, mp, str, s + 1, cp, cs, goal)
  {
    AtStep(wild, w, str, s, cs);
  }

  lemma Restart(wild: seq<char>, w: nat, mp: nat, str: seq<char>, s: nat, cp: nat, cs: bool, goal: bool)
    requires CString(wild) && CString(str) && Searching(wild, w, mp, str, s, cp, cs, goal)
    requires wild[w] != '*' && str[s] != '\0' && !SameChar(wild[w], str[s], cs) && wild[w] != '?'
    ensures Searching(wild, mp, mp, str, cp, cp + 1, cs, goal)
  {
    AtStep(wild, w, str, s, cs);
  }

  lemma AtTheEnd(wild: seq<char>, w: nat, mp: nat, str: seq<char>, s: nat, cp: nat, cs: bool, goal: bool)
    requires CString(wild) && CString(str) && Searching(wild, w, mp, str, s, cp, cs, goal) && str[s] == '\0'
    ensures goal <==> At(wild, w, str, s, cs)
  {
    NoLaterAtEnd(wild, mp, w, str, cp - 1, cs);
  }

  /** Returns 1 exactly when the whole text matches the whole pattern. Every read is inside its buffer. */
  method WildCmp(strBuf: seq<char>, wildBuf: seq<char>, caseSensitive: bool) returns (r: int)
    requires CString(strBuf) && CString(wildBuf)
    ensures r == if Glob(Text(wildBuf), Text(strBuf), caseSensitive) then 1 else 0
    ensures NoStars(Text(wildBuf)) ==> (r == 1 <==> Spelled(Text(wildBuf), Text(strBuf), caseSensitive))
  {
    r := Loops(strBuf, wildBuf, caseSensitive);
    if NoStars(Text(wildBuf)) { WithoutStars(Text(wildBuf), Text(strBuf), caseSensitive); }
  }

  /** The loop over the rest of the text, with one saved restart point. Returns early when the pattern ends in a star. */
  method Backtrack(strBuf: seq<char>, wildBuf: seq<char>, str0: nat, wild0: nat, caseSensitive: bool, ghost goal: bool)
    returns (matched: bool, wild: nat)
    requires CString(strBuf) && CString(wildBuf) && str0 < |strBuf| && wild0 < |wildBuf|
    requires strBuf[str0] == '\0' || wildBuf[wild0] == '*'
    requires goal == At(wildBuf, wild0, strBuf, str0, caseSensitive)
    ensures matched ==> goal
    ensures !matched ==> wild < |wildBuf| && goal == At(wildBuf, wild, strBuf, |strBuf| - 1, caseSensitive)
  {
    var str: nat, cp: nat, mp: nat := str0, 0, 0;
    wild := wild0;
    ghost var starred := false;
    while strBuf[str] != '\0'
      invariant str < |strBuf| && wild < |wildBuf|
      invariant !starred ==> mp == 0 && cp == 0 && (wildBuf[wild] == '*' || strBuf[str] == '\0')
      invariant !starred ==> goal == At(wildBuf, wild, strBuf, str, caseSensitive)
      invariant starred ==> Searching(wildBuf, wild, mp, strBuf, str, cp, caseSensitive, goal)
      decreases |wildBuf| - mp, |strBuf| - cp, |strBuf| - str
    {
      if wildBuf[wild] == '*' {
        if starred { NextStar(wildBuf, wild, mp, strBuf, str, cp, caseSensitive, goal); }
        NewStar(wildBuf, wild, strBuf, str, caseSensitive, goal);
        wild := wild + 1;
        if wildBuf[wild] == '\0' {
          return true, wild;
        }
        mp := wild;
        cp := str + 1;
        starred := true;
      } else if SameChar(wildBuf[wild], strBuf[str], caseSensitive) || wildBuf[wild] == '?' {
        Advance(wildBuf, wild, mp, strBuf, str, cp, caseSensitive, goal);
        wild := wild + 1;
        str := str + 1;
      } else {
        Restart(wildBuf, wild, mp, strBuf, str, cp, caseSensitive, goal);
        wild := mp;
        str := cp;
        cp := cp + 1;
      }
    }
    if starred { AtTheEnd(wildBuf, wild, mp, strBuf, str, cp, caseSensitive, goal); }
    return false, wild;
  }

  /** The three loops: up to the first star, over the rest of the text, and over trailing stars. */
  method Loops(strBuf: seq<char>, wildBuf: seq<char>, caseSensitive: bool) returns (r: int)
    requires CString(strBuf) && CString(wildBuf)
    ensures r == if Glob(Text(wildBuf), Text(strBuf), caseSensitive) then 1 else 0
  {
    var str, wild := 0, 0;
    ghost var goal := At(wildBuf, 0, strBuf, 0, caseSensitive);
    assert Text(wildBuf)[0..] == Text(wildBuf) && Text(strBuf)[0..] == Text(strBuf);

    while strBuf[str] != '\0' && wildBuf[wild] != '*'
      invariant str < |strBuf| && wild < |wildBuf|
      invariant goal == At(wildBuf, wild, strBuf, str, caseSensitive)
      decreases |strBuf| - str
    {
      AtStep(wildBuf, wild, strBuf, str, caseSensitive);
      if !SameChar(wildBuf[wild], strBuf[str], caseSensitive) && wildBuf[wild] != '?' {
        return 0;
      }
      wild := wild + 1;
      str := str + 1;
    }

    var matched;
    matched, wild := Backtrack(strBuf, wildBuf, str, wild, caseSensitive, goal);
    if matched {
      return 1;
    }

    while wildBuf[wild] == '*'
      invariant wild < |wildBuf|
      invariant goal == At(wildBuf, wild, strBuf, |strBuf| - 1, caseSensitive)
      decreases |wildBuf| - wild
    {
      AtStep(wildBuf, wild, strBuf, |strBuf| - 1, caseSensitive);
      wild := wild + 1;
    }
    AtStep(wildBuf, wild, strBuf, |strBuf| - 1, caseSensitive);
    r := if wildBuf[wild] == '\0' then 1 else 0;
  }

  /** A name passes a list of filters: some filter matches it, or an empty list is let through. */
  predicate Passes(name: seq<char>, filters: seq<seq<char>>, matchEmpty: bool, cs: bool)
    requires CString(name) && forall f :: f in filters ==> CString(f)
  {
    (filters == [] && matchEmpty) || exists f :: f in filters && Glob(Text(f), Text(name), cs)
  }

  method MatchesAny(name: seq<char>, filters: seq<seq<char>>, matchEmpty: bool, caseSensitive: bool) returns (r: bool)
    requires CString(name) && forall f :: f in filters ==> CString(f)
    ensures r <==> Passes(name, filters, matchEmpty, caseSensitive)
  {
    if filters == [] && matchEmpty {
      return true;
    }
    for i := 0 to |filters|
      invariant forall f :: f in filters[..i] ==> !Glob(Text(f), Text(name), caseSensitive)
    {
      var matched := WildCmp(name, filters[i], caseSensitive);
      if matched == 1 {
        assert filters[i] in filters;
        return true;
      }
    }
    assert filters[..|filters|] == filters;
    return false;
  }
}
