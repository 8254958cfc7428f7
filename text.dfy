/**
  The few Python `str` operations the bot relies on, over `seq<char>`:
  `isspace`, `strip`, `isdigit`, `int`, `str(n)`, `split(sep)`,
  `split(maxsplit=n)`, `in` (substring) and SQL `ilike '%k%'` over a
  case fold given as a parameter.
*/
module Text {
  import opened Wrappers

  // ---------------------------------------------------------------------
  // Whitespace, `str.strip()`
  // ---------------------------------------------------------------------

  /** `c.isspace()`: the characters CPython treats as whitespace. */
  predicate IsSpace(c: char) {
    || c == ' '
    || ('\t' <= c <= '\r')
    || ('\U{1C}' <= c <= '\U{1F}')
    || c == '\U{85}' || c == '\U{A0}' || c == '\U{1680}'
    || ('\U{2000}' <= c <= '\U{200A}')
    || c == '\U{2028}' || c == '\U{2029}' || c == '\U{202F}' || c == '\U{205F}'
    || c == '\U{3000}'
  }

  predicate AllSpace(s: string) {
    forall k :: 0 <= k < |s| ==> IsSpace(s[k])
  }

  predicate NoSpace(s: string) {
    forall k :: 0 <= k < |s| ==> !IsSpace(s[k])
  }

  /** Neither end of `s` is whitespace (what `strip` leaves behind). */
  predicate Trimmed(s: string) {
    s == [] || (!IsSpace(s[0]) && !IsSpace(s[|s| - 1]))
  }

  /** Length of the whitespace run that starts `s`. */
  function LeadingSpaces(s: string): (n: nat)
    ensures n <= |s|
    ensures AllSpace(s[..n])
    ensures n < |s| ==> !IsSpace(s[n])
  {
    if |s| > 0 && IsSpace(s[0]) then
      var n := 1 + LeadingSpaces(s[1..]);
      assert s[..n] == [s[0]] + s[1..][..n - 1];
      n
    else 0
  }

  lemma AllSpaceSnoc(s: string, c: char)
    requires AllSpace(s) && IsSpace(c)
    ensures AllSpace(s + [c])
  {
    assert forall k :: 0 <= k < |s| ==> (s + [c])[k] == s[k];
  }

  /** Length of the whitespace run that ends `s`. */
  function TrailingSpaces(s: string): (n: nat)
    ensures n <= |s|
    ensures AllSpace(s[|s| - n..])
    ensures n < |s| ==> !IsSpace(s[|s| - n - 1])
  {
    if |s| > 0 && IsSpace(s[|s| - 1]) then
      var init := s[..|s| - 1];
      var m := TrailingSpaces(init);
      assert s[|s| - (m + 1)..] == init[|init| - m..] + [s[|s| - 1]];
      AllSpaceSnoc(init[|init| - m..], s[|s| - 1]);
      assert m + 1 < |s| ==> s[|s| - (m + 1) - 1] == init[|init| - m - 1];
      m + 1
    else 0
  }

  /** `s.lstrip()`. */
  function TrimLeft(s: string): (r: string)
    ensures |r| <= |s| && r == s[|s| - |r|..]
    ensures AllSpace(s[..|s| - |r|])
    ensures r == [] || !IsSpace(r[0])
  {
    s[LeadingSpaces(s)..]
  }

  /** `s.strip()`: `s` with the whitespace at both ends removed. */
  function Strip(s: string): (r: string)
    ensures Trimmed(r)
    ensures |r| <= |s|
    ensures r == [] <==> AllSpace(s)
  {
    var i := LeadingSpaces(s);
    var t := s[i..];
    var j := TrailingSpaces(t);
    assert AllSpace(s) ==> i == |s|;
    assert i == |s| ==> AllSpace(s) by {
      if i == |s| { assert s[..i] == s; }
    }
    t[..|t| - j]
  }

  lemma {:induction false} LeadingSpacesOfPadded(ws: string, t: string)
    requires AllSpace(ws)
    requires t == [] || !IsSpace(t[0])
    ensures LeadingSpaces(ws + t) == |ws|
    decreases |ws|
  {
    if ws == [] {
      assert ws + t == t;
    } else {
      assert (ws + t)[1..] == ws[1..] + t;
      LeadingSpacesOfPadded(ws[1..], t);
    }
  }

  lemma {:induction false} TrailingSpacesOfPadded(t: string, ws: string)
    requires AllSpace(ws)
    requires t == [] || !IsSpace(t[|t| - 1])
    ensures TrailingSpaces(t + ws) == |ws|
    decreases |ws|
  {
    if ws == [] {
      assert t + ws == t;
    } else {
      var w := ws[..|ws| - 1];
      assert (t + ws)[..|t + ws| - 1] == t + w;
      TrailingSpacesOfPadded(t, w);
    }
  }

  /**
    Whitespace around a trimmed string does not change what `strip`
    returns; with `Trimmed(Strip(s))` this characterises `Strip`.
  */
  lemma StripPadded(ws1: string, t: string, ws2: string)
    requires AllSpace(ws1) && AllSpace(ws2) && Trimmed(t)
    ensures Strip(ws1 + t + ws2) == t
  {
    var s := ws1 + t + ws2;
    if t == [] {
      assert AllSpace(s);
    } else {
      assert s == ws1 + (t + ws2);
      LeadingSpacesOfPadded(ws1, t + ws2);
      assert s[|ws1|..] == t + ws2;
      TrailingSpacesOfPadded(t, ws2);
      assert (t + ws2)[..|t|] == t;
    }
  }

  lemma StripTrimmed(t: string)
    requires Trimmed(t)
    ensures Strip(t) == t
  {
    StripPadded([], t, []);
    assert [] + t + [] == t;
  }

  // ---------------------------------------------------------------------
  // Digits, `str.isdigit()`, `str(n)`, `int(s)`
  // ---------------------------------------------------------------------

  predicate IsDigit(c: char) {
    '0' <= c <= '9'
  }

  predicate AllDigits(s: string) {
    forall k :: 0 <= k < |s| ==> IsDigit(s[k])
  }

  /** `s.isdigit()` over ASCII digits: non-empty and digits only. */
  predicate IsDigits(s: string) {
    |s| > 0 && AllDigits(s)
  }

  /** The number a digit string spells in base 10. */
  function DigitsValue(s: string): nat
    requires AllDigits(s)
  {
    if s == [] then 0
    else 10 * DigitsValue(s[..|s| - 1]) + (s[|s| - 1] as int - '0' as int)
  }

  function DigitChar(d: nat): (c: char)
    requires d < 10
    ensures IsDigit(c) && c as int - '0' as int == d
  {
    ('0' as int + d) as char
  }

  /** `str(n)`: the decimal numeral of `n`, with no leading zero. */
  function ShowNat(n: nat): (r: string)
    ensures IsDigits(r)
    ensures r[0] == '0' ==> n == 0 && r == "0"
  {
    if n < 10 then [DigitChar(n)]
    else ShowNat(n / 10) + [DigitChar(n % 10)]
  }

  lemma {:induction false} ShowNatValue(n: nat)
    ensures DigitsValue(ShowNat(n)) == n
  {
    if n >= 10 {
      var s := ShowNat(n);
      assert s[..|s| - 1] == ShowNat(n / 10);
      ShowNatValue(n / 10);
    }
  }

  lemma ShowNatInjective(m: nat, n: nat)
    requires ShowNat(m) == ShowNat(n)
    ensures m == n
  {
    ShowNatValue(m);
    ShowNatValue(n);
  }

  lemma ShowNatNoSpace(n: nat)
    ensures NoSpace(ShowNat(n)) && Trimmed(ShowNat(n))
  {
  }

  /**
    `int(s)` on the inputs the bot gives it: surrounding whitespace, an
    optional sign, ASCII digits. None where Python raises ValueError.
  */
  function ParseInt(s: string): (r: Option<int>)
    ensures r.Some? ==> Strip(s) != []
    ensures r.Some? ==> IsDigits(Strip(s)) || (IsDigits(Strip(s)[1..]) && (Strip(s)[0] == '-' || Strip(s)[0] == '+'))
    ensures IsDigits(Strip(s)) ==> r == Some(DigitsValue(Strip(s)))
  {
    var t := Strip(s);
    if |t| > 1 && (t[0] == '-' || t[0] == '+') && IsDigits(t[1..]) then
      var v: int := DigitsValue(t[1..]);
      Some(if t[0] == '-' then -v else v)
    else if IsDigits(t) then Some(DigitsValue(t))
    else None
  }

  /** `int(str(n)) == n`: every numeral the bot writes reads back as itself. */
  lemma ParseShowNat(n: nat)
    ensures ParseInt(ShowNat(n)) == Some(n)
  {
    var s := ShowNat(n);
    StripTrimmed(s);
    assert !IsDigit('-') && !IsDigit('+');
    ShowNatValue(n);
  }

  /** `int(s)` of a digit string is the number it spells. */
  lemma ParseDigits(s: string)
    requires IsDigits(s)
    ensures ParseInt(s) == Some(DigitsValue(s) as int)
  {
    StripTrimmed(s);
    assert !IsDigit('-') && !IsDigit('+');
  }

  /** `str(i)` for any integer: a minus sign before the numeral of a negative one. */
  function ShowInt(i: int): (r: string)
    ensures r != [] && (IsDigit(r[0]) || r[0] == '-')
    ensures forall c :: c in r ==> IsDigit(c) || c == '-'
  {
    if i < 0 then "-" + ShowNat(-i) else ShowNat(i)
  }

  /** `int(str(i)) == i`, negative numbers included. */
  lemma ParseShowInt(i: int)
    ensures ParseInt(ShowInt(i)) == Some(i)
  {
    if i < 0 {
      var s := ShowInt(i);
      var d := ShowNat(-i);
      assert s == ['-'] + d && s[1..] == d;
      assert !IsSpace('-') && !IsSpace(d[|d| - 1]);
      assert Trimmed(s);
      StripTrimmed(s);
      ShowNatValue(-i);
    } else {
      ParseShowNat(i);
    }
  }

  /** A digit string holds no separator such as ':' or '|'. */
  lemma DigitsExclude(s: string, c: char)
    requires AllDigits(s) && !IsDigit(c)
    ensures c !in s
  {
  }

  /** `s[:n]`: the first `n` characters, or all of `s` when it is shorter. */
  function Take(s: string, n: nat): (r: string)
    ensures |r| <= n && r <= s
    ensures |s| <= n ==> r == s
  {
    if |s| <= n then s else s[..n]
  }

  /** `s[n:]`: what follows the first `n` characters (empty when `s` is shorter). */
  function Drop(s: string, n: nat): (r: string)
    ensures Take(s, n) + r == s
  {
    if |s| <= n then [] else s[n..]
  }

  // ---------------------------------------------------------------------
  // `str.split(sep)` and its inverse `sep.join(parts)`
  // ---------------------------------------------------------------------

  /** Position of the first `c` in `s`, if any. */
  function IndexOf(s: string, c: char): (r: Option<nat>)
    ensures r.None? ==> c !in s
    ensures r.Some? ==> r.value < |s| && s[r.value] == c && c !in s[..r.value]
  {
    if s == [] then None
    else if s[0] == c then Some(0)
    else match IndexOf(s[1..], c)
      case None => None
      case Some(i) =>
        assert s[..i + 1] == [s[0]] + s[1..][..i];
        Some(i + 1)
  }

  /** `sep.join(parts)`. */
  function Join(parts: seq<string>, sep: char): string {
    if parts == [] then ""
    else if |parts| == 1 then parts[0]
    else parts[0] + [sep] + Join(parts[1..], sep)
  }

  /** `s.split(sep)` for a one-character separator. */
  function Split(s: string, sep: char): (parts: seq<string>)
    ensures |parts| >= 1
    ensures forall k :: 0 <= k < |parts| ==> sep !in parts[k]
    ensures Join(parts, sep) == s
    decreases |s|
  {
    match IndexOf(s, sep)
    case None => [s]
    case Some(i) =>
      var rest := Split(s[i + 1..], sep);
      assert s == s[..i] + [sep] + s[i + 1..];
      assert ([s[..i]] + rest)[1..] == rest;
      [s[..i]] + rest
  }

  /** `split` undoes `join` when no part contains the separator. */
  lemma {:induction false} SplitJoin(parts: seq<string>, sep: char)
    requires |parts| >= 1
    requires forall k :: 0 <= k < |parts| ==> sep !in parts[k]
    ensures Split(Join(parts, sep), sep) == parts
    decreases |parts|
  {
    var s := Join(parts, sep);
    if |parts| == 1 {
      assert IndexOf(s, sep) == None;
    } else {
      var p := parts[0];
      assert s == p + [sep] + Join(parts[1..], sep);
      assert s[|p|] == sep && s[..|p|] == p;
      assert IndexOf(s, sep) == Some(|p|);
      assert s[|p| + 1..] == Join(parts[1..], sep);
      SplitJoin(parts[1..], sep);
    }
  }

  /** The first separator-free part splits off the front. */
  lemma SplitCons(a: string, rest: string, sep: char)
    requires sep !in a
    ensures Split(a + [sep] + rest, sep) == [a] + Split(rest, sep)
  {
    var s := a + [sep] + rest;
    assert s[|a|] == sep && s[..|a|] == a;
    IndexOfFirst(s, sep, |a|);
    assert s[|a| + 1..] == rest;
  }

  /** `IndexOf` finds the first occurrence. */
  lemma {:induction false} IndexOfFirst(s: string, c: char, i: nat)
    requires i < |s| && s[i] == c && c !in s[..i]
    ensures IndexOf(s, c) == Some(i)
    decreases i
  {
    if i > 0 {
      assert s[0] == s[..i][0];
      assert s[1..][i - 1] == s[i];
      assert s[1..][..i - 1] == s[..i][1..];
      IndexOfFirst(s[1..], c, i - 1);
    }
  }

  /** `(a + sep + b).split(sep) == [a, b]` for separator-free `a`, `b`. */
  lemma SplitPair(a: string, b: string, sep: char)
    requires sep !in a && sep !in b
    ensures Split(a + [sep] + b, sep) == [a, b]
  {
    assert Join([a, b], sep) == a + [sep] + b;
    SplitJoin([a, b], sep);
  }

  /**
    `s.split(sep, maxsplit=1)` unpacked into two names: None when `sep` does
    not occur, otherwise the text before its first occurrence and all of the
    text after it (which may contain `sep` again).
  */
  function SplitFirst(s: string, sep: char): (r: Option<(string, string)>)
    ensures r.None? <==> sep !in s
    ensures r.Some? ==> sep !in r.value.0 && s == r.value.0 + [sep] + r.value.1
  {
    match IndexOf(s, sep)
    case None => None
    case Some(i) =>
      assert s == s[..i] + [sep] + s[i + 1..];
      Some((s[..i], s[i + 1..]))
  }

  /** Splitting at the first separator recovers both sides. */
  lemma SplitFirstOf(a: string, b: string, sep: char)
    requires sep !in a
    ensures SplitFirst(a + [sep] + b, sep) == Some((a, b))
  {
    var s := a + [sep] + b;
    assert s[|a|] == sep && s[..|a|] == a;
    IndexOfFirst(s, sep, |a|);
    assert s[|a| + 1..] == b;
  }

  /** The lines of `ls`, each ended by a newline (a loop of `text += line + "\n"`). */
  function Lines(ls: seq<string>): string {
    if ls == [] then "" else Lines(ls[..|ls| - 1]) + ls[|ls| - 1] + "\n"
  }

  lemma LinesSnoc(ls: seq<string>, l: string)
    ensures Lines(ls + [l]) == Lines(ls) + l + "\n"
  {
    assert (ls + [l])[..|ls|] == ls;
  }

  lemma {:induction false} LinesCons(l: string, ls: seq<string>)
    ensures Lines([l] + ls) == l + "\n" + Lines(ls)
    decreases |ls|
  {
    if ls == [] {
      assert [l] + ls == [] + [l];
      LinesSnoc([], l);
    } else {
      var init, last := ls[..|ls| - 1], ls[|ls| - 1];
      assert ls == init + [last];
      assert [l] + ls == ([l] + init) + [last];
      LinesSnoc([l] + init, last);
      LinesCons(l, init);
      LinesSnoc(init, last);
    }
  }

  /** Splitting the text at newlines gives the lines back, then an empty tail. */
  lemma {:induction false} SplitLines(ls: seq<string>)
    requires forall k :: 0 <= k < |ls| ==> '\n' !in ls[k]
    ensures Split(Lines(ls), '\n') == ls + [""]
    decreases |ls|
  {
    if ls == [] {
      assert IndexOf("", '\n') == None;
    } else {
      assert ls == [ls[0]] + ls[1..];
      LinesCons(ls[0], ls[1..]);
      assert "\n" == ['\n'];
      SplitCons(ls[0], Lines(ls[1..]), '\n');
      SplitLines(ls[1..]);
    }
  }

  /** The same after a heading line. */
  lemma SplitTitled(h: string, ls: seq<string>)
    requires '\n' !in h
    requires forall k :: 0 <= k < |ls| ==> '\n' !in ls[k]
    ensures Split(h + "\n" + Lines(ls), '\n') == [h] + ls + [""]
  {
    assert h + "\n" + Lines(ls) == h + ['\n'] + Lines(ls);
    SplitCons(h, Lines(ls), '\n');
    SplitLines(ls);
  }

  // ---------------------------------------------------------------------
  // `str.split(maxsplit=n)` (no separator: runs of whitespace)
  // ---------------------------------------------------------------------

  /** Length of the non-whitespace run that starts `s`. */
  function WordLength(s: string): (n: nat)
    ensures n <= |s|
    ensures NoSpace(s[..n])
    ensures n < |s| ==> IsSpace(s[n])
  {
    if |s| > 0 && !IsSpace(s[0]) then
      var n := 1 + WordLength(s[1..]);
      assert s[..n] == [s[0]] + s[1..][..n - 1];
      n
    else 0
  }

  /**
    `s.split(maxsplit=m)`: up to `m` leading words, then the rest of the
    line with its leading whitespace dropped (trailing whitespace kept).
  */
  function SplitWs(s: string, maxsplit: nat): (parts: seq<string>)
    ensures |parts| <= maxsplit + 1
    ensures forall k :: 0 <= k < |parts| ==> parts[k] != [] && !IsSpace(parts[k][0])
    ensures forall k :: 0 <= k < |parts| - 1 ==> NoSpace(parts[k])
    ensures AllSpace(s) <==> parts == []
    decreases |s|
  {
    var t := TrimLeft(s);
    AllSpaceTrimLeft(s);
    if t == [] then []
    else if maxsplit == 0 then [t]
    else
      var n := WordLength(t);
      var w := t[..n];
      var rest := SplitWs(t[n..], maxsplit - 1);
      ConsParts(w, rest);
      [w] + rest
  }

  lemma AllSpaceTrimLeft(s: string)
    ensures TrimLeft(s) == [] <==> AllSpace(s)
  {
    if TrimLeft(s) == [] { assert s[..|s|] == s; }
  }

  lemma ConsParts(w: string, rest: seq<string>)
    requires w != [] && !IsSpace(w[0]) && NoSpace(w)
    requires forall k :: 0 <= k < |rest| ==> rest[k] != [] && !IsSpace(rest[k][0])
    requires forall k :: 0 <= k < |rest| - 1 ==> NoSpace(rest[k])
    ensures forall k :: 0 <= k < |[w] + rest| ==> ([w] + rest)[k] != [] && !IsSpace(([w] + rest)[k][0])
    ensures forall k :: 0 <= k < |[w] + rest| - 1 ==> NoSpace(([w] + rest)[k])
  {
    forall k | 1 <= k < |[w] + rest| ensures ([w] + rest)[k] == rest[k - 1] { }
  }

  lemma SplitWsWord(w: string, sp: string, rest: string, maxsplit: nat)
    requires w != [] && NoSpace(w) && sp != [] && AllSpace(sp)
    requires maxsplit > 0
    ensures SplitWs(w + sp + rest, maxsplit) == [w] + SplitWs(rest, maxsplit - 1)
  {
    var s := w + sp + rest;
    var n := WordLength(s);
    assert n == |w| && s[..n] == w && s[n..] == sp + rest by {
      assert s == w + (sp + rest);
      WordLengthOfWord(w, sp + rest);
    }
    assert !IsSpace(s[0]) by { assert s[0] == w[0]; }
    SplitWsUnfold(s, maxsplit);
    SplitWsSkip(sp, rest, maxsplit - 1);
  }

  /** A text that starts with a word splits into that word and the rest. */
  lemma SplitWsUnfold(s: string, maxsplit: nat)
    requires s != [] && !IsSpace(s[0]) && maxsplit > 0
    ensures SplitWs(s, maxsplit) == [s[..WordLength(s)]] + SplitWs(s[WordLength(s)..], maxsplit - 1)
  {
    LeadingSpacesOfPadded([], s);
    assert [] + s == s;
  }

  /** Whitespace in front of the rest does not change its split. */
  lemma SplitWsSkip(sp: string, rest: string, maxsplit: nat)
    requires AllSpace(sp)
    ensures SplitWs(sp + rest, maxsplit) == SplitWs(rest, maxsplit)
  {
    TrimLeftPadded(sp, rest);
    SplitWsTrim(sp + rest, maxsplit);
    SplitWsTrim(rest, maxsplit);
  }

  lemma {:induction false} WordLengthOfWord(w: string, t: string)
    requires NoSpace(w)
    requires t == [] || IsSpace(t[0])
    ensures WordLength(w + t) == |w|
    decreases |w|
  {
    if w == [] {
      assert w + t == t;
    } else {
      assert (w + t)[1..] == w[1..] + t;
      WordLengthOfWord(w[1..], t);
    }
  }

  lemma TrimLeftPadded(sp: string, rest: string)
    requires AllSpace(sp)
    ensures TrimLeft(sp + rest) == TrimLeft(rest)
  {
    var t := TrimLeft(rest);
    var pre := rest[..|rest| - |t|];
    assert rest == pre + t;
    assert sp + rest == (sp + pre) + t;
    LeadingSpacesOfPadded(sp + pre, t);
  }

  /** Leading whitespace does not change the split. */
  lemma SplitWsTrim(s: string, maxsplit: nat)
    ensures SplitWs(s, maxsplit) == SplitWs(TrimLeft(s), maxsplit)
  {
    var t := TrimLeft(s);
    assert TrimLeft(t) == t by {
      assert t == [] || !IsSpace(t[0]);
      LeadingSpacesOfPadded([], t);
      assert [] + t == t;
    }
  }

  /** A text that starts with a non-space is its own last part. */
  lemma SplitWsLast(rest: string)
    requires rest != [] && !IsSpace(rest[0])
    ensures SplitWs(rest, 0) == [rest]
  {
    LeadingSpacesOfPadded([], rest);
    assert [] + rest == rest;
  }

  // ---------------------------------------------------------------------
  // Substrings, `ilike '%keyword%'`
  // ---------------------------------------------------------------------

  /** `needle in hay`. */
  predicate Contains(hay: string, needle: string) {
    exists i :: 0 <= i <= |hay| && needle <= hay[i..]
  }

  function MapChars(f: char -> char, s: string): (r: string)
    ensures |r| == |s| && forall k :: 0 <= k < |s| ==> r[k] == f(s[k])
  {
    seq(|s|, k requires 0 <= k < |s| => f(s[k]))
  }

  /**
    `hay ilike '%needle%'`: a substring match after both sides are case
    folded with `fold`, the database's own folding.
  */
  predicate ContainsFolded(fold: char -> char, hay: string, needle: string) {
    Contains(MapChars(fold, hay), MapChars(fold, needle))
  }

  /** A literal occurrence is found whatever the folding. */
  lemma ContainsImpliesFolded(fold: char -> char, hay: string, needle: string)
    requires Contains(hay, needle)
    ensures ContainsFolded(fold, hay, needle)
  {
    var i :| 0 <= i <= |hay| && needle <= hay[i..];
    var fh, fn := MapChars(fold, hay), MapChars(fold, needle);
    assert fn <= fh[i..] by {
      forall k | 0 <= k < |fn| ensures fn[k] == fh[i..][k] {
        assert needle[k] == hay[i + k];
      }
    }
  }

  /** The empty keyword matches every text (`'%%'`). */
  lemma EmptyNeedle(fold: char -> char, hay: string)
    ensures ContainsFolded(fold, hay, "")
  {
    assert "" <= MapChars(fold, hay)[0..];
  }

  /** A text that differs from `p` at some position before both end does not start with `p`. */
  lemma DiffersAt(p: string, s: string, k: nat)
    requires k < |p| && k < |s| && p[k] != s[k]
    ensures !(p <= s)
  {
  }
}
