/** Symbol normalisation: surrounding white space removed, ASCII letters in upper case. */
module Symbols {

  type Symbol = string

  /** The Unicode White_Space property. */
  predicate IsWhitespace(c: char) {
    '\U{0009}' <= c <= '\U{000D}' || c == ' ' || c == '\U{0085}' || c == '\U{00A0}' || c == '\U{1680}' ||
    '\U{2000}' <= c <= '\U{200A}' || c == '\U{2028}' || c == '\U{2029}' || c == '\U{202F}' || c == '\U{205F}' ||
    c == '\U{3000}'
  }

  function TrimStart(s: string): string {
    if s != [] && IsWhitespace(s[0]) then TrimStart(s[1..]) else s
  }

  function TrimEnd(s: string): string {
    if s != [] && IsWhitespace(s[|s| - 1]) then TrimEnd(s[..|s| - 1]) else s
  }

  function UpperChar(c: char): char {
    if 'a' <= c <= 'z' then c - 'a' + 'A' else c
  }

  function Upper(s: string): (u: string)
    ensures |u| == |s| && forall i :: 0 <= i < |s| ==> u[i] == UpperChar(s[i])
  {
    if s == [] then [] else [UpperChar(s[0])] + Upper(s[1..])
  }

  function Normalize(s: string): Symbol {
    Upper(TrimEnd(TrimStart(s)))
  }

  ghost predicate Trimmed(s: string) {
    s == [] || (!IsWhitespace(s[0]) && !IsWhitespace(s[|s| - 1]))
  }

  lemma {:induction false} TrimStartTrims(s: string)
    ensures TrimStart(s) == [] || !IsWhitespace(TrimStart(s)[0])
  {
    if s != [] && IsWhitespace(s[0]) {
      TrimStartTrims(s[1..]);
    }
  }

  lemma {:induction false} TrimEndTrims(s: string)
    requires s == [] || !IsWhitespace(s[0])
    ensures Trimmed(TrimEnd(s))
  {
    if s != [] && IsWhitespace(s[|s| - 1]) {
      TrimEndTrims(s[..|s| - 1]);
    }
  }

  lemma TrimmedStays(s: string)
    requires Trimmed(s)
    ensures TrimStart(s) == s && TrimEnd(s) == s
  {
  }

  lemma UpperTwice(s: string)
    ensures Upper(Upper(s)) == Upper(s)
    ensures Trimmed(s) ==> Trimmed(Upper(s))
  {
    forall i | 0 <= i < |s| ensures UpperChar(UpperChar(s[i])) == UpperChar(s[i]) && IsWhitespace(UpperChar(s[i])) == IsWhitespace(s[i]) {
      UpperCharTwice(s[i]);
    }
    hide UpperChar, IsWhitespace;
    assert forall i :: 0 <= i < |s| ==> Upper(Upper(s))[i] == Upper(s)[i];
  }

  lemma UpperCharTwice(c: char)
    ensures UpperChar(UpperChar(c)) == UpperChar(c) && IsWhitespace(UpperChar(c)) == IsWhitespace(c)
  {
  }

  /** Normalising twice is normalising once, so a symbol read back from disk finds its book. */
  lemma NormalizeIdempotent(s: string)
    ensures Normalize(Normalize(s)) == Normalize(s)
  {
    var t := TrimEnd(TrimStart(s));
    TrimStartTrims(s);
    TrimEndTrims(TrimStart(s));
    UpperTwice(t);
    TrimmedStays(Upper(t));
  }

  // ---------------------------------------------------------------- which spellings share a key

  ghost predicate Blank(s: string) {
    forall c :: c in s ==> IsWhitespace(c)
  }

  lemma {:induction false} TrimStartSkips(p: string, s: string)
    requires Blank(p) && (s == [] || !IsWhitespace(s[0]))
    ensures TrimStart(p + s) == s
  {
    if p == [] {
      assert p + s == s;
    } else {
      assert p[0] in p && forall c :: c in p[1..] ==> c in p;
      assert (p + s)[1..] == p[1..] + s;
      TrimStartSkips(p[1..], s);
    }
  }

  lemma {:induction false} TrimEndSkips(s: string, q: string)
    requires Blank(q) && (s == [] || !IsWhitespace(s[|s| - 1]))
    ensures TrimEnd(s + q) == s
  {
    if q == [] {
      assert s + q == s;
    } else {
      var last := |q| - 1;
      assert q[last] in q && forall c :: c in q[..last] ==> c in q;
      assert (s + q)[..|s + q| - 1] == s + q[..last];
      TrimEndSkips(s, q[..last]);
    }
  }

  /** White space around a symbol does not count; letters a to z are raised, and nothing else
      about it changes. */
  lemma NormalizeExactly(p: string, t: string, q: string)
    requires Blank(p) && Blank(q) && Trimmed(t)
    ensures var key := Normalize(p + t + q);
            && |key| == |t|
            && forall i :: 0 <= i < |t| ==> key[i] == if 'a' <= t[i] <= 'z' then (t[i] as int - 32) as char else t[i]
  {
    if t == [] {
      assert forall c :: c in p + t + q ==> IsWhitespace(c);
      assert p + t + q == (p + t + q) + [];
      TrimStartSkips(p + t + q, []);
    } else {
      assert (t + q)[0] == t[0] && p + t + q == p + (t + q);
      TrimStartSkips(p, t + q);
      TrimEndSkips(t, q);
    }
  }

  /** Every text is a symbol with white space around it. */
  lemma {:induction false} Splits(s: string) returns (p: string, t: string, q: string)
    ensures s == p + t + q && Blank(p) && Trimmed(t) && Blank(q)
  {
    if s != [] && IsWhitespace(s[0]) {
      var p';
      p', t, q := Splits(s[1..]);
      p := [s[0]] + p';
    } else if s != [] && IsWhitespace(s[|s| - 1]) {
      var q';
      p, t, q' := Splits(s[..|s| - 1]);
      q := q' + [s[|s| - 1]];
      assert p + t + q == (p + t + q') + [s[|s| - 1]];
    } else {
      p, t, q := [], s, [];
    }
  }

  /** A symbol written the way the engine keeps it: no white space around it, no small letter. */
  ghost predicate Canonical(s: string) {
    Trimmed(s) && forall i :: 0 <= i < |s| ==> !('a' <= s[i] <= 'z')
  }

  lemma KeysTrimmed(s: string)
    ensures Trimmed(Normalize(s))
  {
    TrimStartTrims(s);
    TrimEndTrims(TrimStart(s));
    UpperTwice(TrimEnd(TrimStart(s)));
  }

  /** A canonical symbol is its own key, and every key is canonical. */
  lemma CanonicalKeys(s: string)
    ensures Canonical(s) <==> Normalize(s) == s
    ensures Canonical(Normalize(s))
  {
    hide Normalize, Trimmed, Blank;
    var p, t, q := Splits(s);
    NormalizeExactly(p, t, q);
    KeysTrimmed(s);
    if Canonical(s) {
      NothingAround(s);
      NormalizeExactly([], s, []);
      assert Normalize(s) == s;
    }
  }

  lemma NothingAround(s: string)
    ensures [] + s + [] == s && Blank([])
  {
  }

  predicate SameLetter(c: char, d: char) {
    c == d || ('a' <= c <= 'z' && c as int - 32 == d as int) || ('a' <= d <= 'z' && d as int - 32 == c as int)
  }

  /** The same letters, a to z in either case. */
  ghost predicate SameLetters(s: string, t: string) {
    |s| == |t| && forall i :: 0 <= i < |s| ==> SameLetter(s[i], t[i])
  }

  lemma RaisedAlike(c: char, d: char)
    ensures (if 'a' <= c <= 'z' then (c as int - 32) as char else c) == (if 'a' <= d <= 'z' then (d as int - 32) as char else d)
       <==> SameLetter(c, d)
  {
  }

  /** Two spellings share a key if and only if, white space around them aside, they are the
      same text up to the case of a to z. */
  lemma SharedKeys(p: string, s: string, q: string, p': string, s': string, q': string)
    requires Blank(p) && Trimmed(s) && Blank(q) && Blank(p') && Trimmed(s') && Blank(q')
    ensures Normalize(p + s + q) == Normalize(p' + s' + q') <==> SameLetters(s, s')
  {
    hide Normalize, SameLetter, Blank, Trimmed;
    NormalizeExactly(p, s, q);
    NormalizeExactly(p', s', q');
    var key, key' := Normalize(p + s + q), Normalize(p' + s' + q');
    if |s| == |s'| {
      forall i | 0 <= i < |s| ensures key[i] == key'[i] <==> SameLetter(s[i], s'[i]) {
        RaisedAlike(s[i], s'[i]);
      }
    }
  }

  /** Blanks, tabs and line ends are white space; the visible ASCII characters are not. */
  lemma AsciiWhitespace(c: char)
    requires c <= '~'
    ensures IsWhitespace(c) <==> c == ' ' || 9 <= c as int <= 13
  {
  }
}
