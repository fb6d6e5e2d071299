/**
 Python string primitives the scripts rely on: `isspace`, ASCII case mapping,
 `lower`, `endswith`, `strip`, `split()` and `' '.join`.
 */
module Text {

  /** Python's `str.isspace()`: the characters `split()` and `strip()` treat as blanks. */
  predicate IsSpace(c: char) {
    || c == ' '
    || ('\t' <= c <= '\r')
    || ('\U{1C}' <= c <= '\U{1F}')
    || c == '\U{85}' || c == '\U{A0}' || c == '\U{1680}'
    || ('\U{2000}' <= c <= '\U{200A}')
    || c == '\U{2028}' || c == '\U{2029}' || c == '\U{202F}' || c == '\U{205F}' || c == '\U{3000}'
  }

  /** The separators `Tokens` splits on: blanks (`str.split()`) or slashes (path parts). */
  datatype Separator = Blank | Slash

  predicate IsSep(kind: Separator, c: char) {
    match kind
    case Blank => IsSpace(c)
    case Slash => c == '/'
  }

  predicate IsAsciiUpper(c: char) { 'A' <= c <= 'Z' }

  predicate IsAsciiLower(c: char) { 'a' <= c <= 'z' }

  /** Lower-cases an ASCII letter and leaves every other character alone. */
  function ToLower(c: char): (r: char)
    ensures IsAsciiUpper(c) ==> IsAsciiLower(r) && r as int == c as int + 32
    ensures !IsAsciiUpper(c) ==> r == c
  {
    if IsAsciiUpper(c) then (c as int + 32) as char else c
  }

  /** Upper-cases an ASCII letter and leaves every other character alone. */
  function ToUpper(c: char): (r: char)
    ensures IsAsciiLower(c) ==> IsAsciiUpper(r) && r as int == c as int - 32
    ensures !IsAsciiLower(c) ==> r == c
  {
    if IsAsciiLower(c) then (c as int - 32) as char else c
  }

  /** Case mapping never turns a blank into a non-blank or back. */
  lemma CaseKeepsSpaces(c: char)
    ensures IsSpace(ToLower(c)) <==> IsSpace(c)
    ensures IsSpace(ToUpper(c)) <==> IsSpace(c)
  {
  }

  /** Python's `s.lower()` restricted to ASCII letters. */
  function Lower(s: string): (r: string)
    ensures |r| == |s|
    ensures forall i :: 0 <= i < |s| ==> r[i] == ToLower(s[i])
  {
    seq(|s|, i requires 0 <= i < |s| => ToLower(s[i]))
  }

  /** Python's `s.endswith(suffix)`. */
  predicate EndsWith(s: string, suffix: string) {
    |suffix| <= |s| && s[|s| - |suffix|..] == suffix
  }

  /** Python's `s.endswith((e0, e1, ...))`: some suffix of the tuple matches. */
  predicate EndsWithAny(s: string, suffixes: seq<string>) {
    exists i :: 0 <= i < |suffixes| && EndsWith(s, suffixes[i])
  }

  /** Python's `s.capitalize()`: first character upper-cased, the rest lower-cased. */
  function Capitalize(w: string): (r: string)
    ensures |r| == |w|
    ensures |w| > 0 ==> r[0] == ToUpper(w[0])
    ensures forall i :: 0 < i < |w| ==> r[i] == ToLower(w[i])
  {
    if w == [] then [] else [ToUpper(w[0])] + Lower(w[1..])
  }

  /** A non-empty run of characters none of which is a separator. */
  predicate IsToken(w: string, kind: Separator) {
    |w| > 0 && forall i :: 0 <= i < |w| ==> !IsSep(kind, w[i])
  }

  /** Every piece of `ws` is a token. */
  predicate AllTokens(ws: seq<string>, kind: Separator) {
    forall w :: w in ws ==> IsToken(w, kind)
  }

  /** Capitalising a whitespace-free word keeps it whitespace-free. */
  lemma CapitalizeKeepsToken(w: string)
    requires IsToken(w, Blank)
    ensures IsToken(Capitalize(w), Blank)
  {
    var r := Capitalize(w);
    forall i | 0 <= i < |r|
      ensures !IsSpace(r[i])
    {
      CaseKeepsSpaces(w[i]);
    }
  }

  /** Drops the leading separators of `s`. */
  function SkipSeps(s: string, kind: Separator): (t: string)
    ensures |t| <= |s|
    ensures t == [] || !IsSep(kind, t[0])
  {
    if s == [] || !IsSep(kind, s[0]) then s else SkipSeps(s[1..], kind)
  }

  lemma {:induction false} SkipSepsSuffix(s: string, kind: Separator)
    ensures SkipSeps(s, kind) == s[|s| - |SkipSeps(s, kind)|..]
    decreases |s|
  {
    if s != [] && IsSep(kind, s[0]) {
      SkipSepsSuffix(s[1..], kind);
    }
  }

  /** Length of the leading run of non-separators of `s`. */
  function WordLength(s: string, kind: Separator): (n: nat)
    ensures n <= |s|
    ensures s != [] && !IsSep(kind, s[0]) ==> n > 0
  {
    if s == [] || IsSep(kind, s[0]) then 0 else 1 + WordLength(s[1..], kind)
  }

  /**
   Python's `s.split()` generalised to any separator predicate: the maximal
   runs of non-separators, in order, with no empty pieces.
   */
  function Tokens(s: string, kind: Separator): seq<string>
    decreases |s|
  {
    var t := SkipSeps(s, kind);
    if t == [] then []
    else
      var n := WordLength(t, kind);
      [t[..n]] + Tokens(t[n..], kind)
  }

  /** Every piece `Tokens` returns is non-empty and free of separators. */
  lemma {:induction false} TokensAreTokens(s: string, kind: Separator)
    ensures AllTokens(Tokens(s, kind), kind)
    decreases |s|
  {
    var t := SkipSeps(s, kind);
    if t != [] {
      var n := WordLength(t, kind);
      WordLengthRun(t, kind);
      assert IsToken(t[..n], kind);
      TokensAreTokens(t[n..], kind);
    }
  }

  /** `WordLength` measures exactly the leading run of non-separators. */
  lemma {:induction false} WordLengthRun(s: string, kind: Separator)
    ensures forall i :: 0 <= i < WordLength(s, kind) ==> !IsSep(kind, s[i])
    ensures WordLength(s, kind) < |s| ==> IsSep(kind, s[WordLength(s, kind)])
    decreases |s|
  {
    if s != [] && !IsSep(kind, s[0]) {
      WordLengthRun(s[1..], kind);
    }
  }

  /** Python's `sep.join(ws)` for a one-character separator. */
  function Join(ws: seq<string>, glue: char): (r: string)
    ensures |ws| == 0 ==> r == []
  {
    if ws == [] then []
    else if |ws| == 1 then ws[0]
    else ws[0] + [glue] + Join(ws[1..], glue)
  }

  /** The leading word of `w + rest` is `w` when `rest` starts with a separator or is empty. */
  lemma {:induction false} WordLengthOfToken(w: string, rest: string, kind: Separator)
    requires forall i :: 0 <= i < |w| ==> !IsSep(kind, w[i])
    requires rest == [] || IsSep(kind, rest[0])
    ensures WordLength(w + rest, kind) == |w|
    decreases |w|
  {
    if w != [] {
      assert (w + rest)[1..] == w[1..] + rest;
      WordLengthOfToken(w[1..], rest, kind);
    }
  }

  /** Leading separators do not change the tokens. */
  lemma {:induction false} TokensSkipSeps(s: string, kind: Separator)
    ensures Tokens(s, kind) == Tokens(SkipSeps(s, kind), kind)
    decreases |s|
  {
    if s != [] && IsSep(kind, s[0]) {
      TokensSkipSeps(s[1..], kind);
    }
  }

  /** A token followed by nothing or by a separator splits off as exactly that token. */
  lemma TokensOfTokenThen(w: string, rest: string, kind: Separator)
    requires IsToken(w, kind)
    requires rest == [] || IsSep(kind, rest[0])
    ensures Tokens(w + rest, kind) == [w] + Tokens(rest, kind)
  {
    var s := w + rest;
    assert s[0] == w[0];
    assert SkipSeps(s, kind) == s;
    WordLengthOfToken(w, rest, kind);
    assert s[..|w|] == w;
    assert s[|w|..] == rest;
  }

  /**
   Splitting a separator-joined list of tokens gives the tokens back: the
   partner of `Join`.
   */
  lemma {:induction false} TokensOfJoin(ws: seq<string>, glue: char, kind: Separator)
    requires IsSep(kind, glue)
    requires AllTokens(ws, kind)
    ensures Tokens(Join(ws, glue), kind) == ws
    decreases |ws|
  {
    if |ws| == 1 {
      assert ws[0] in ws;
      TokensOfSingleToken(ws[0], kind);
    } else if |ws| > 1 {
      assert ws[0] in ws;
      TailAllTokens(ws, kind);
      JoinCons(ws, glue);
      TokensOfJoinStep(ws[0], glue, Join(ws[1..], glue), kind);
      TokensOfJoin(ws[1..], glue, kind);
      assert [ws[0]] + ws[1..] == ws;
    }
  }

  lemma TokensOfJoinStep(w: string, glue: char, rest: string, kind: Separator)
    requires IsToken(w, kind) && IsSep(kind, glue)
    ensures Tokens(w + ([glue] + rest), kind) == [w] + Tokens(rest, kind)
  {
    TokensOfTokenThen(w, [glue] + rest, kind);
    TokensSkipSep(glue, rest, kind);
  }

  lemma TokensOfSingleToken(w: string, kind: Separator)
    requires IsToken(w, kind)
    ensures Tokens(w, kind) == [w]
  {
    TokensOfTokenThen(w, [], kind);
    assert w + [] == w;
  }

  lemma TailAllTokens(ws: seq<string>, kind: Separator)
    requires |ws| > 0 && AllTokens(ws, kind)
    ensures AllTokens(ws[1..], kind)
  {
    forall w | w in ws[1..] ensures IsToken(w, kind) {
      assert w in ws;
    }
  }

  lemma JoinCons(ws: seq<string>, glue: char)
    requires |ws| > 1
    ensures Join(ws, glue) == ws[0] + ([glue] + Join(ws[1..], glue))
  {
  }

  lemma TokensSkipSep(glue: char, rest: string, kind: Separator)
    requires IsSep(kind, glue)
    ensures Tokens([glue] + rest, kind) == Tokens(rest, kind)
  {
    TokensSkipSeps([glue] + rest, kind);
    assert ([glue] + rest)[1..] == rest;
    TokensSkipSeps(rest, kind);
  }

  lemma {:induction false} SkipSepsAppend(x: string, y: string, kind: Separator)
    ensures SkipSeps(x, kind) != [] ==> SkipSeps(x + y, kind) == SkipSeps(x, kind) + y
    ensures SkipSeps(x, kind) == [] ==> SkipSeps(x + y, kind) == SkipSeps(y, kind)
    decreases |x|
  {
    if x == [] {
      assert x + y == y;
    } else {
      assert (x + y)[0] == x[0];
      assert (x + y)[1..] == x[1..] + y;
      SkipSepsAppend(x[1..], y, kind);
    }
  }

  lemma {:induction false} WordLengthAppend(t: string, y: string, kind: Separator)
    requires WordLength(t, kind) < |t|
    ensures WordLength(t + y, kind) == WordLength(t, kind)
    decreases |t|
  {
    assert (t + y)[0] == t[0];
    if !IsSep(kind, t[0]) {
      assert (t + y)[1..] == t[1..] + y;
      WordLengthAppend(t[1..], y, kind);
    }
  }

  /**
   Tokens of a string that ends with a separator (or is empty) followed by
   more text are its own tokens followed by those of the text.
   */
  lemma {:induction false} TokensAfterSep(x: string, y: string, kind: Separator)
    requires x == [] || IsSep(kind, x[|x| - 1])
    ensures Tokens(x + y, kind) == Tokens(x, kind) + Tokens(y, kind)
    decreases |x|
  {
    if SkipSeps(x, kind) == [] {
      TokensAfterBlankRun(x, y, kind);
    } else {
      var w, u := TokensFirstOfPrefix(x, y, kind);
      TokensAfterSep(u, y, kind);
      ConsThenAppend(Tokens(x, kind), Tokens(x + y, kind), Tokens(y, kind), w, Tokens(u, kind), Tokens(u + y, kind));
    }
  }

  lemma ConsThenAppend<T>(whole: seq<T>, joined: seq<T>, more: seq<T>, first: T, rest: seq<T>, restJoined: seq<T>)
    requires whole == [first] + rest && joined == [first] + restJoined && restJoined == rest + more
    ensures joined == whole + more
  {
    assert [first] + (rest + more) == ([first] + rest) + more;
  }

  /** A run of separators in front of `y` contributes no token. */
  lemma TokensAfterBlankRun(x: string, y: string, kind: Separator)
    requires SkipSeps(x, kind) == []
    ensures Tokens(x, kind) == []
    ensures Tokens(x + y, kind) == Tokens(y, kind)
  {
    SkipSepsAppend(x, y, kind);
    TokensSkipSeps(x + y, kind);
    TokensSkipSeps(y, kind);
    TokensSkipSeps(x, kind);
  }

  /**
   When `x` ends with a separator and holds a token, the first token of
   `x + y` is the first token `w` of `x`, and the rest `u` of `x` is shorter.
   */
  lemma TokensFirstOfPrefix(x: string, y: string, kind: Separator) returns (w: string, u: string)
    requires x != [] && IsSep(kind, x[|x| - 1]) && SkipSeps(x, kind) != []
    ensures Tokens(x, kind) == [w] + Tokens(u, kind)
    ensures Tokens(x + y, kind) == [w] + Tokens(u + y, kind)
    ensures |u| < |x| && u != [] && IsSep(kind, u[|u| - 1])
  {
    var t := SkipSeps(x, kind);
    var n := WordLength(t, kind);
    assert n < |t| && IsSep(kind, t[|t| - 1]) by {
      SkipSepsSuffix(x, kind);
      assert t[|t| - 1] == x[|x| - 1];
      WordLengthRun(t, kind);
    }
    w, u := t[..n], t[n..];
    TokensStep(x, t, n, kind);
    TokensStepAppend(x, y, t, n, kind);
    assert u[|u| - 1] == t[|t| - 1];
  }

  lemma TokensStepAppend(x: string, y: string, t: string, n: nat, kind: Separator)
    requires t == SkipSeps(x, kind) && t != [] && n == WordLength(t, kind) && n < |t|
    ensures Tokens(x + y, kind) == [t[..n]] + Tokens(t[n..] + y, kind)
  {
    SkipSepsAppend(x, y, kind);
    WordLengthAppend(t, y, kind);
    TokensStep(x + y, t + y, n, kind);
    assert (t + y)[..n] == t[..n];
    assert (t + y)[n..] == t[n..] + y;
  }

  /** One step of `Tokens`, for a string whose first token starts `t` and is `n` long. */
  lemma TokensStep(s: string, t: string, n: nat, kind: Separator)
    requires t == SkipSeps(s, kind) && t != [] && n == WordLength(t, kind)
    ensures Tokens(s, kind) == [t[..n]] + Tokens(t[n..], kind)
  {
  }

  /**
   A string with no leading, trailing or doubled separator: every separator
   sits strictly inside and between two non-separators.
   */
  predicate SingleSpaced(s: string, kind: Separator) {
    forall i :: 0 <= i < |s| && IsSep(kind, s[i]) ==>
      0 < i < |s| - 1 && !IsSep(kind, s[i - 1]) && !IsSep(kind, s[i + 1])
  }

  /** Joining tokens with one separator character yields a single-spaced string. */
  lemma {:induction false} JoinSingleSpaced(ws: seq<string>, glue: char, kind: Separator)
    requires AllTokens(ws, kind)
    ensures SingleSpaced(Join(ws, glue), kind)
    ensures |ws| > 0 ==> |Join(ws, glue)| > 0 && !IsSep(kind, Join(ws, glue)[0])
    ensures |ws| > 0 ==> !IsSep(kind, Join(ws, glue)[|Join(ws, glue)| - 1])
    decreases |ws|
  {
    if |ws| == 1 {
      assert ws[0] in ws;
    } else if |ws| > 1 {
      assert ws[0] in ws;
      TailAllTokens(ws, kind);
      JoinSingleSpaced(ws[1..], glue, kind);
      var w := ws[0];
      var rest := Join(ws[1..], glue);
      var s := w + [glue] + rest;
      assert Join(ws, glue) == s;
      forall i | 0 <= i < |s| && IsSep(kind, s[i])
        ensures 0 < i < |s| - 1 && !IsSep(kind, s[i - 1]) && !IsSep(kind, s[i + 1])
      {
        if i < |w| {
          assert false;
        } else if i == |w| {
          assert s[i - 1] == w[|w| - 1];
          assert s[i + 1] == rest[0];
        } else {
          assert s[i] == rest[i - |w| - 1];
          if i - |w| - 1 > 0 {
            assert s[i - 1] == rest[i - |w| - 2];
          }
          assert s[i + 1] == rest[i - |w|];
        }
      }
    }
  }

  /** Joining tokens puts no separator into the result other than the glue between them. */
  lemma {:induction false} JoinSeparatorsAreGlue(ws: seq<string>, glue: char, kind: Separator)
    requires AllTokens(ws, kind)
    ensures forall i :: 0 <= i < |Join(ws, glue)| && IsSep(kind, Join(ws, glue)[i]) ==> Join(ws, glue)[i] == glue
    decreases |ws|
  {
    if |ws| == 1 {
      assert ws[0] in ws;
    } else if |ws| > 1 {
      assert ws[0] in ws;
      TailAllTokens(ws, kind);
      JoinSeparatorsAreGlue(ws[1..], glue, kind);
      var w := ws[0];
      var rest := Join(ws[1..], glue);
      assert Join(ws, glue) == w + [glue] + rest;
      assert forall i :: |w| < i < |w| + 1 + |rest| ==> (w + [glue] + rest)[i] == rest[i - |w| - 1];
    }
  }

  /** Python's `s.lstrip()`. */
  function StripStart(s: string): (r: string)
    ensures |r| <= |s|
    ensures r == [] || !IsSpace(r[0])
  {
    SkipSeps(s, Blank)
  }

  /** Python's `s.rstrip()`. */
  function StripEnd(s: string): (r: string)
    ensures |r| <= |s|
    ensures r == [] || !IsSpace(r[|r| - 1])
    ensures s == [] || !IsSpace(s[|s| - 1]) ==> r == s
  {
    if s == [] || !IsSpace(s[|s| - 1]) then s else StripEnd(s[..|s| - 1])
  }

  /**
   Python's `s.strip()`: the middle of `s` left once every blank is cut
   from both ends, so no blank is left at either end.
   */
  function Strip(s: string): (r: string)
    ensures |r| <= |s|
    ensures r == [] || (!IsSpace(r[0]) && !IsSpace(r[|r| - 1]))
    ensures exists i :: BlankPadded(s, r, i)
  {
    var t := StripStart(s);
    var r := StripEnd(t);
    StripEndPrefix(t);
    SkipSepsSuffix(s, Blank);
    SkipSepsDropsSeps(s, Blank);
    StripEndDropsBlanks(t);
    var i := |s| - |t|;
    assert r == s[i..i + |r|];
    assert forall k :: i + |r| <= k < |s| ==> s[k] == t[k - i];
    assert BlankPadded(s, r, i);
    r
  }

  /** `s` is `r` starting at index `i`, with only blanks before and after it. */
  predicate BlankPadded(s: string, r: string, i: int) {
    && 0 <= i <= |s| - |r|
    && r == s[i..i + |r|]
    && (forall k :: 0 <= k < i ==> IsSpace(s[k]))
    && (forall k :: i + |r| <= k < |s| ==> IsSpace(s[k]))
  }

  /** `SkipSeps` drops separators only. */
  lemma {:induction false} SkipSepsDropsSeps(s: string, kind: Separator)
    ensures forall k :: 0 <= k < |s| - |SkipSeps(s, kind)| ==> IsSep(kind, s[k])
    decreases |s|
  {
    if s != [] && IsSep(kind, s[0]) {
      SkipSepsDropsSeps(s[1..], kind);
      assert forall k :: 1 <= k < |s| ==> s[k] == s[1..][k - 1];
    }
  }

  /** `StripEnd` drops blanks only. */
  lemma {:induction false} StripEndDropsBlanks(s: string)
    ensures forall k :: |StripEnd(s)| <= k < |s| ==> IsSpace(s[k])
    decreases |s|
  {
    if s != [] && IsSpace(s[|s| - 1]) {
      StripEndDropsBlanks(s[..|s| - 1]);
    }
  }

  lemma {:induction false} StripEndPrefix(s: string)
    ensures StripEnd(s) == s[..|StripEnd(s)|]
    decreases |s|
  {
    if s != [] && IsSpace(s[|s| - 1]) {
      StripEndPrefix(s[..|s| - 1]);
    }
  }

  /** A string with no blank at either end is its own strip. */
  lemma StripNoBlankEnds(s: string)
    requires s == [] || (!IsSpace(s[0]) && !IsSpace(s[|s| - 1]))
    ensures Strip(s) == s
  {
  }

  predicate AllBlank(s: string) {
    forall k :: 0 <= k < |s| ==> IsSpace(s[k])
  }

  /** Leading blanks are all `SkipSeps` drops: it stops at the first non-blank. */
  lemma {:induction false} SkipBlankPrefix(p: string, x: string)
    requires AllBlank(p)
    requires x == [] || !IsSpace(x[0])
    ensures SkipSeps(p + x, Blank) == x
    decreases |p|
  {
    if p == [] {
      assert p + x == x;
    } else {
      assert (p + x)[0] == p[0];
      assert (p + x)[1..] == p[1..] + x;
      SkipBlankPrefix(p[1..], x);
    }
  }

  /** Trailing blanks are all `StripEnd` drops: it stops at the last non-blank. */
  lemma {:induction false} StripEndBlankSuffix(t: string, q: string)
    requires AllBlank(q)
    requires t == [] || !IsSpace(t[|t| - 1])
    ensures StripEnd(t + q) == t
    decreases |q|
  {
    if q == [] {
      assert t + q == t;
    } else {
      assert (t + q)[..|t + q| - 1] == t + q[..|q| - 1];
      StripEndBlankSuffix(t, q[..|q| - 1]);
    }
  }

  /** `(p + t + q).strip()` is `t` when `p` and `q` are blanks and `t` has none at its ends. */
  lemma StripPadded(p: string, t: string, q: string)
    requires AllBlank(p) && AllBlank(q)
    requires t != [] && !IsSpace(t[0]) && !IsSpace(t[|t| - 1])
    ensures Strip(p + t + q) == t
  {
    assert p + t + q == p + (t + q);
    SkipBlankPrefix(p, t + q);
    StripEndBlankSuffix(t, q);
  }

  /** Stripping twice is stripping once. */
  lemma StripIdempotent(s: string)
    ensures Strip(Strip(s)) == Strip(s)
  {
    StripNoBlankEnds(Strip(s));
  }
}
