/** Python string operations used by the catalog and chatbot code, written out
    character by character: `str.strip`, `str.split()`, `str.lower`, `str.upper`,
    `str.replace(pat, "")`, `in` on strings, `str.isdigit` and `str(int)`. */
module Text {

  /** `str.isspace` for one character: what `strip()` and `split()` with no
      argument treat as whitespace. */
  predicate IsSpace(c: char) {
    var n := c as int;
    (9 <= n <= 13) || (28 <= n <= 32) || n == 0x85 || n == 0xA0 || n == 0x1680 ||
    (0x2000 <= n <= 0x200A) || n == 0x2028 || n == 0x2029 || n == 0x202F ||
    n == 0x205F || n == 0x3000
  }

  predicate NotSpace(c: char) {
    !IsSpace(c)
  }

  /** `str.isdigit` restricted to the ASCII digits. */
  predicate IsDigit(c: char) {
    '0' <= c <= '9'
  }

  /** Every character of `s` satisfies `p`. */
  predicate All(p: char -> bool, s: string) {
    s == [] || (p(s[0]) && All(p, s[1..]))
  }

  lemma {:induction false} AllAppend(p: char -> bool, a: string, b: string)
    ensures All(p, a + b) <==> All(p, a) && All(p, b)
  {
    if a == [] {
      assert a + b == b;
    } else {
      assert (a + b)[0] == a[0] && (a + b)[1..] == a[1..] + b;
      AllAppend(p, a[1..], b);
    }
  }

  lemma {:induction false} AllAt(p: char -> bool, s: string, i: nat)
    requires All(p, s) && i < |s|
    ensures p(s[i])
  {
    if i > 0 {
      AllAt(p, s[1..], i - 1);
    }
  }

  lemma {:induction false} AllLast(p: char -> bool, s: string)
    requires s != []
    ensures All(p, s) <==> All(p, s[..|s| - 1]) && p(s[|s| - 1])
  {
    assert s == s[..|s| - 1] + [s[|s| - 1]];
    AllAppend(p, s[..|s| - 1], [s[|s| - 1]]);
  }

  predicate AllSpace(s: string) {
    All(IsSpace, s)
  }

  /** Python's `s.isdigit()`: false on the empty string. */
  predicate IsDigits(s: string) {
    |s| > 0 && All(IsDigit, s)
  }

  function CountDigits(s: string): nat {
    if s == [] then 0 else (if IsDigit(s[0]) then 1 else 0) + CountDigits(s[1..])
  }

  lemma {:induction false} CountDigitsAppend(a: string, b: string)
    ensures CountDigits(a + b) == CountDigits(a) + CountDigits(b)
  {
    if a == [] {
      assert a + b == b;
    } else {
      assert (a + b)[1..] == a[1..] + b;
      CountDigitsAppend(a[1..], b);
    }
  }

  /** In a string of digits, every character is counted. */
  lemma {:induction false} CountDigitsAll(s: string)
    requires All(IsDigit, s)
    ensures CountDigits(s) == |s|
  {
    if s != [] {
      CountDigitsAll(s[1..]);
    }
  }

  lemma SplitAt(s: string, k: nat)
    requires k <= |s|
    ensures s == s[..k] + s[k..]
  {
  }

  // ---------------------------------------------------------------- strip

  function TrimLeft(s: string): (r: string)
    ensures |r| <= |s| && r == s[|s| - |r|..]
    ensures r == [] || !IsSpace(r[0])
  {
    if s != [] && IsSpace(s[0]) then TrimLeft(s[1..]) else s
  }

  function TrimRight(s: string): (r: string)
    ensures |r| <= |s| && r == s[..|r|]
  {
    if AllSpace(s) then [] else [s[0]] + TrimRight(s[1..])
  }

  /** `s.strip()`. */
  function Strip(s: string): (r: string)
    ensures |r| <= |s|
  {
    TrimRight(TrimLeft(s))
  }

  /** What `TrimLeft` drops is whitespace. */
  lemma {:induction false} TrimLeftDropsSpace(s: string)
    ensures AllSpace(s[..|s| - |TrimLeft(s)|])
  {
    if s != [] && IsSpace(s[0]) {
      TrimLeftDropsSpace(s[1..]);
      var k := |s| - |TrimLeft(s)|;
      var lead := s[..k];
      assert lead != [] && lead[0] == s[0] && lead[1..] == s[1..][..k - 1];
    } else {
      assert s[..0] == [];
    }
  }

  /** What `TrimRight` drops is whitespace. */
  lemma {:induction false} TrimRightDropsSpace(s: string)
    ensures AllSpace(s[|TrimRight(s)|..])
  {
    if AllSpace(s) {
      assert s[0..] == s;
    } else {
      TrimRightDropsSpace(s[1..]);
      assert s[|TrimRight(s)|..] == s[1..][|TrimRight(s[1..])|..];
    }
  }

  lemma TrimRightEmpty(s: string)
    ensures TrimRight(s) == [] <==> AllSpace(s)
  {
  }

  /** What `TrimRight` keeps ends with a non-whitespace character. */
  lemma {:induction false} TrimRightEnds(s: string)
    ensures var r := TrimRight(s); r == [] || !IsSpace(r[|r| - 1])
  {
    if !AllSpace(s) {
      TrimRightEnds(s[1..]);
      TrimRightEmpty(s[1..]);
    }
  }

  /** `s` is its leading whitespace followed by `TrimLeft(s)`. */
  lemma TrimLeftShape(s: string) returns (lead: string)
    ensures s == lead + TrimLeft(s) && AllSpace(lead)
  {
    TrimLeftDropsSpace(s);
    lead := s[..|s| - |TrimLeft(s)|];
    SplitAt(s, |lead|);
  }
  /** `s` is `TrimRight(s)` followed by its trailing whitespace. */
  lemma TrimRightShape(s: string) returns (trail: string)
    ensures s == TrimRight(s) + trail && AllSpace(trail)
  {
    TrimRightDropsSpace(s);
    trail := s[|TrimRight(s)|..];
    SplitAt(s, |TrimRight(s)|);
  }

  /** `strip` cuts `s` into leading whitespace, a result that starts and ends
      with a non-whitespace character, and trailing whitespace. */
  lemma StripShape(s: string) returns (lead: string, trail: string)
    ensures s == lead + (Strip(s) + trail)
    ensures AllSpace(lead) && AllSpace(trail)
    ensures var r := Strip(s); r == [] || (!IsSpace(r[0]) && !IsSpace(r[|r| - 1]))
  {
    var t := TrimLeft(s);
    lead := TrimLeftShape(s);
    trail := TrimRightShape(t);
    TrimRightEnds(t);
  }

  lemma {:induction false} CountDigitsTrimLeft(s: string)
    ensures CountDigits(TrimLeft(s)) == CountDigits(s)
  {
    if s != [] && IsSpace(s[0]) {
      CountDigitsTrimLeft(s[1..]);
    }
  }

  lemma {:induction false} CountDigitsAllSpace(s: string)
    requires AllSpace(s)
    ensures CountDigits(s) == 0
  {
    if s != [] {
      CountDigitsAllSpace(s[1..]);
    }
  }

  lemma {:induction false} CountDigitsTrimRight(s: string)
    ensures CountDigits(TrimRight(s)) == CountDigits(s)
  {
    if AllSpace(s) {
      CountDigitsAllSpace(s);
    } else {
      CountDigitsTrimRight(s[1..]);
      assert TrimRight(s)[1..] == TrimRight(s[1..]);
    }
  }

  /** Stripping removes only whitespace, so it never removes a digit. */
  lemma CountDigitsStrip(s: string)
    ensures CountDigits(Strip(s)) == CountDigits(s)
  {
    CountDigitsTrimLeft(s);
    CountDigitsTrimRight(TrimLeft(s));
  }

  lemma {:induction false} TrimLeftAllSpace(s: string)
    ensures TrimLeft(s) == [] <==> AllSpace(s)
  {
    if s != [] && IsSpace(s[0]) {
      TrimLeftAllSpace(s[1..]);
    }
  }

  lemma StripAllSpace(s: string)
    ensures Strip(s) == [] <==> AllSpace(s)
  {
    TrimLeftAllSpace(s);
    TrimRightEmpty(TrimLeft(s));
  }

  lemma {:induction false} TrimLeftPrefix(a: string, b: string)
    requires AllSpace(a)
    requires b == [] || !IsSpace(b[0])
    ensures TrimLeft(a + b) == b
  {
    if a == [] {
      assert a + b == b;
    } else {
      assert (a + b)[1..] == a[1..] + b;
      TrimLeftPrefix(a[1..], b);
    }
  }

  lemma {:induction false} TrimRightAllSpace(a: string, b: string)
    requires AllSpace(b)
    requires a == [] || !IsSpace(a[|a| - 1])
    ensures TrimRight(a + b) == a
  {
    if a == [] {
      assert a + b == b;
    } else {
      assert !AllSpace(a + b) by {
        AllAppend(IsSpace, a, b);
        AllLast(IsSpace, a);
      }
      assert (a + b)[1..] == a[1..] + b;
      TrimRightAllSpace(a[1..], b);
    }
  }

  lemma {:induction false} TrimRightAppend(a: string, b: string)
    requires !AllSpace(b)
    ensures TrimRight(a + b) == a + TrimRight(b)
  {
    if a == [] {
      assert a + b == b;
    } else {
      assert !AllSpace(a + b) by {
        AllAppend(IsSpace, a, b);
      }
      assert (a + b)[0] == a[0] && (a + b)[1..] == a[1..] + b;
      TrimRightAppend(a[1..], b);
      assert TrimRight(a + b) == [a[0]] + (a[1..] + TrimRight(b));
      ConsAppend(a, TrimRight(b));
    }
  }

  lemma ConsAppend(a: string, t: string)
    requires a != []
    ensures [a[0]] + (a[1..] + t) == a + t
  {
    assert a == [a[0]] + a[1..];
  }

  // ---------------------------------------------------------------- split

  /** The maximal prefix of `s` that holds no whitespace. */
  function WordPrefix(s: string): (w: string)
    ensures |w| <= |s| && w == s[..|w|]
    ensures s != [] && !IsSpace(s[0]) ==> |w| > 0
  {
    if s == [] || IsSpace(s[0]) then [] else [s[0]] + WordPrefix(s[1..])
  }

  /** What follows the first word of `s`. */
  function WordRest(s: string): (r: string)
    ensures |r| <= |s|
    ensures s != [] && !IsSpace(s[0]) ==> |r| < |s|
  {
    if s == [] || IsSpace(s[0]) then s else WordRest(s[1..])
  }

  /** `t` is its first word followed by a rest that is empty or starts with
      whitespace. */
  lemma {:induction false} WordShape(t: string)
    ensures t == WordPrefix(t) + WordRest(t)
    ensures WordRest(t) == [] || IsSpace(WordRest(t)[0])
  {
    if t != [] && !IsSpace(t[0]) {
      WordShape(t[1..]);
      assert t == [t[0]] + t[1..];
    }
  }

  /** `s.split()`: the maximal runs of non-whitespace characters, in order. */
  function Words(s: string): seq<string>
    decreases |s|
  {
    var t := TrimLeft(s);
    if t == [] then [] else [WordPrefix(t)] + Words(WordRest(t))
  }

  lemma WordsEmpty(s: string)
    ensures Words(s) == [] <==> AllSpace(s)
  {
    TrimLeftAllSpace(s);
  }

  /** The maximal suffix of `s` that holds no whitespace. */
  function WordSuffix(s: string): (w: string)
    ensures |w| <= |s| && w == s[|s| - |w|..]
  {
    if All(NotSpace, s) then s
    else
      var w := WordSuffix(s[1..]);
      assert s[1..][|s| - 1 - |w|..] == s[|s| - |w|..];
      w
  }

  lemma {:induction false} WordSuffixNoSpace(s: string)
    ensures All(NotSpace, WordSuffix(s))
  {
    if !All(NotSpace, s) {
      WordSuffixNoSpace(s[1..]);
    }
  }

  /** A string that ends with a non-whitespace character has a non-empty
      last word. */
  lemma {:induction false} WordSuffixNonEmpty(s: string)
    requires s != [] && !IsSpace(s[|s| - 1])
    ensures WordSuffix(s) != []
  {
    if !All(NotSpace, s) {
      if |s| == 1 {
        assert s == [s[0]];
      } else {
        WordSuffixNonEmpty(s[1..]);
      }
    }
  }

  /** The last word read from the right: drop trailing whitespace, then take
      the run of non-whitespace characters that ends the string. */
  function LastWordFromRight(s: string): string {
    WordSuffix(TrimRight(s))
  }

  lemma {:induction false} WordSuffixAppend(a: string, b: string, i: nat)
    requires i < |b| && IsSpace(b[i])
    ensures WordSuffix(a + b) == WordSuffix(b)
  {
    if a != [] {
      assert !All(NotSpace, a + b) by {
        if All(NotSpace, a + b) {
          AllAppend(NotSpace, a, b);
          AllAt(NotSpace, b, i);
        }
      }
      assert (a + b)[1..] == a[1..] + b;
      WordSuffixAppend(a[1..], b, i);
    } else {
      assert a + b == b;
    }
  }

  lemma {:induction false} WordSuffixOfWord(a: string, w: string)
    requires a == [] || IsSpace(a[|a| - 1])
    requires All(NotSpace, w)
    ensures WordSuffix(a + w) == w
  {
    if a != [] {
      assert !All(NotSpace, a + w) by {
        if All(NotSpace, a + w) {
          AllAppend(NotSpace, a, w);
          AllAt(NotSpace, a, |a| - 1);
        }
      }
      assert (a + w)[1..] == a[1..] + w;
      WordSuffixOfWord(a[1..], w);
    } else {
      assert a + w == w;
    }
  }

  lemma {:induction false} WordPrefixNoSpace(s: string)
    ensures All(NotSpace, WordPrefix(s))
  {
    if s != [] && !IsSpace(s[0]) {
      WordPrefixNoSpace(s[1..]);
    }
  }


  /** With only whitespace after it, the last word is `w`. */
  lemma LastWordOnly(s: string, lead: string, w: string, rest: string)
    requires s == lead + (w + rest)
    requires AllSpace(lead) && AllSpace(rest)
    requires w != [] && All(NotSpace, w)
    ensures LastWordFromRight(s) == w
  {
    var a := lead + w;
    assert s == a + rest;
    assert a[|a| - 1] == w[|w| - 1];
    AllLast(NotSpace, w);
    TrimRightAllSpace(a, rest);
    if lead != [] {
      AllLast(IsSpace, lead);
    }
    WordSuffixOfWord(lead, w);
  }

  /** When a word follows after whitespace, what comes before does not
      matter. */
  lemma LastWordLater(s: string, a: string, w: string, rest: string)
    requires s == a + (w + rest)
    requires !AllSpace(rest) && IsSpace(rest[0])
    ensures LastWordFromRight(s) == LastWordFromRight(rest)
  {
    var aw := a + w;
    assert s == aw + rest;
    var tr := TrimRight(rest);
    TrimRightAppend(aw, rest);
    TrimRightEmpty(rest);
    assert tr[0] == rest[0];
    WordSuffixAppend(aw, tr, 0);
  }

  /** `s.split()[-1]` agrees with reading the last word from the right. */
  lemma {:induction false} LastWordAgrees(s: string)
    requires Words(s) != []
    ensures Words(s)[|Words(s)| - 1] == LastWordFromRight(s)
    decreases |s|
  {
    var t := TrimLeft(s);
    var lead := TrimLeftShape(s);
    var w := WordPrefix(t);
    var rest := WordRest(t);
    assert t != [] && !IsSpace(t[0]) && w != [];
    WordShape(t);
    assert Words(s) == [w] + Words(rest);
    assert s == lead + (w + rest);
    WordsEmpty(rest);
    if Words(rest) == [] {
      WordPrefixNoSpace(t);
      LastWordOnly(s, lead, w, rest);
    } else {
      LastWordLater(s, lead, w, rest);
      LastWordAgrees(rest);
    }
  }

  /** `s.split(",")[0]`: everything before the first comma. */
  function FirstSegment(s: string): (r: string)
    ensures |r| <= |s| && r == s[..|r|]
    ensures |r| == |s| || s[|r|] == ','
    ensures ',' !in r
  {
    if s == [] || s[0] == ',' then [] else [s[0]] + FirstSegment(s[1..])
  }

  // ---------------------------------------------------------------- search and replace

  predicate StartsWith(s: string, prefix: string) {
    |prefix| <= |s| && s[..|prefix|] == prefix
  }

  /** Python's `sub in s`. */
  predicate Contains(s: string, sub: string) {
    StartsWith(s, sub) || (s != [] && Contains(s[1..], sub))
  }

  /** `s.replace(c, "")` for a one-character `c`: every `c` is dropped. */
  function RemoveChar(s: string, c: char): (r: string)
    ensures |r| <= |s|
  {
    if s == [] then [] else (if s[0] == c then [] else [s[0]]) + RemoveChar(s[1..], c)
  }

  lemma {:induction false} RemoveCharAppend(a: string, b: string, c: char)
    ensures RemoveChar(a + b, c) == RemoveChar(a, c) + RemoveChar(b, c)
  {
    if a == [] {
      assert a + b == b;
    } else {
      assert (a + b)[0] == a[0] && (a + b)[1..] == a[1..] + b;
      RemoveCharAppend(a[1..], b, c);
    }
  }

  lemma {:induction false} CountDigitsRemoveChar(s: string, c: char)
    requires !IsDigit(c)
    ensures CountDigits(RemoveChar(s, c)) == CountDigits(s)
  {
    if s != [] {
      CountDigitsRemoveChar(s[1..], c);
      CountDigitsAppend(if s[0] == c then [] else [s[0]], RemoveChar(s[1..], c));
    }
  }

  /** `s.replace(pat, "")` for a non-empty `pat`: occurrences are removed left
      to right, without overlapping, in one pass (what the removal joins up
      is not searched again). */
  function RemoveAll(s: string, pat: string): (r: string)
    requires |pat| > 0
    ensures |r| <= |s|
  {
    if StartsWith(s, pat) then RemoveAll(s[|pat|..], pat)
    else if s == [] then []
    else [s[0]] + RemoveAll(s[1..], pat)
  }

  /** A string without the pattern comes back unchanged. */
  lemma {:induction false} RemoveAllAbsent(s: string, pat: string)
    requires |pat| > 0 && !Contains(s, pat)
    ensures RemoveAll(s, pat) == s
  {
    if s != [] {
      RemoveAllAbsent(s[1..], pat);
    }
  }

  // ---------------------------------------------------------------- case mapping

  /** `str.lower` on one character, for ASCII and Latin-1. */
  function LowerChar(c: char): char {
    if 'A' <= c <= 'Z' || ('\U{C0}' <= c <= '\U{DE}' && c != '\U{D7}') then (c as int + 32) as char
    else c
  }

  function Lower(s: string): (r: string)
    ensures |r| == |s|
  {
    seq(|s|, i requires 0 <= i < |s| => LowerChar(s[i]))
  }

  /** `str.upper` on one character, for ASCII and Latin-1 (where `ß` becomes
      "SS", `ÿ` becomes U+0178 and `µ` becomes U+039C). */
  function UpperChar(c: char): (r: string)
    ensures |r| > 0
  {
    if 'a' <= c <= 'z' || ('\U{E0}' <= c <= '\U{FE}' && c != '\U{F7}') then [(c as int - 32) as char]
    else if c == '\U{DF}' then "SS"
    else if c == '\U{FF}' then ['\U{178}']
    else if c == '\U{B5}' then ['\U{39C}']
    else [c]
  }

  function Upper(s: string): (r: string)
    ensures |r| >= |s|
  {
    if s == [] then [] else UpperChar(s[0]) + Upper(s[1..])
  }

  lemma {:induction false} UpperAppend(a: string, b: string)
    ensures Upper(a + b) == Upper(a) + Upper(b)
  {
    if a == [] {
      assert a + b == b;
    } else {
      assert (a + b)[1..] == a[1..] + b;
      UpperAppend(a[1..], b);
    }
  }

  lemma UpperCharSpace(c: char)
    ensures IsSpace(c) ==> UpperChar(c) == [c]
    ensures !IsSpace(c) ==> forall i :: 0 <= i < |UpperChar(c)| ==> !IsSpace(UpperChar(c)[i])
  {
  }

  lemma {:induction false} UpperAllSpace(s: string)
    requires AllSpace(s)
    ensures Upper(s) == s
  {
    if s != [] {
      UpperCharSpace(s[0]);
      UpperAllSpace(s[1..]);
    }
  }

  lemma UpperEnds(r: string)
    requires r != [] && !IsSpace(r[0]) && !IsSpace(r[|r| - 1])
    ensures Upper(r) != [] && !IsSpace(Upper(r)[0]) && !IsSpace(Upper(r)[|Upper(r)| - 1])
  {
    var init := r[..|r| - 1];
    var last := r[|r| - 1];
    assert r == init + [last];
    UpperAppend(init, [last]);
    UpperCharSpace(r[0]);
    UpperCharSpace(last);
    assert Upper([last]) == UpperChar(last);
  }

  lemma {:induction false} UpperSpacePrefix(a: string, x: string)
    requires AllSpace(a)
    ensures Upper(a + x) == a + Upper(x)
  {
    if a != [] {
      UpperCharSpace(a[0]);
      assert (a + x)[1..] == a[1..] + x;
      UpperSpacePrefix(a[1..], x);
      assert a == [a[0]] + a[1..];
    } else {
      assert a + x == x;
    }
  }

  lemma UpperAround(lead: string, r: string, trail: string)
    requires AllSpace(lead) && AllSpace(trail)
    ensures Upper(lead + (r + trail)) == lead + (Upper(r) + trail)
  {
    UpperSpacePrefix(lead, r + trail);
    UpperAppend(r, trail);
    UpperAllSpace(trail);
  }

  lemma StripAround(lead: string, u: string, trail: string)
    requires AllSpace(lead) && AllSpace(trail)
    requires u == [] || (!IsSpace(u[0]) && !IsSpace(u[|u| - 1]))
    ensures Strip(lead + (u + trail)) == u
  {
    if u == [] {
      assert u + trail == trail;
      AllAppend(IsSpace, lead, trail);
      StripAllSpace(lead + trail);
    } else {
      TrimLeftPrefix(lead, u + trail);
      TrimRightAllSpace(u, trail);
    }
  }

  /** Upper-casing keeps whitespace as it is and never turns a visible
      character into whitespace, so it commutes with `strip`. */
  lemma StripUpper(s: string)
    ensures Strip(Upper(s)) == Upper(Strip(s))
  {
    var lead, trail := StripShape(s);
    var r := Strip(s);
    var u := Upper(r);
    assert Upper(s) == lead + (u + trail) by {
      UpperAround(lead, r, trail);
    }
    assert u == [] || (!IsSpace(u[0]) && !IsSpace(u[|u| - 1])) by {
      if r != [] {
        UpperEnds(r);
      }
    }
    StripAround(lead, u, trail);
  }

  /** A string upper-cases to exactly one ASCII capital `X` only when it is
      `X` itself or its lower-case letter. */
  lemma UpperSingleCapital(s: string, x: char)
    requires 'A' <= x <= 'Z'
    ensures Upper(s) == [x] <==> s == [x] || s == [LowerChar(x)]
  {
    if s != [] {
      UpperAppend([s[0]], s[1..]);
      assert s == [s[0]] + s[1..];
      assert Upper([s[0]]) == UpperChar(s[0]);
    }
  }

  // ---------------------------------------------------------------- numbers

  function DigitChar(d: nat): char
    requires d < 10
  {
    ('0' as int + d) as char
  }

  /** `str(n)` for a natural number: decimal digits, most significant first. */
  function NatToString(n: nat): (r: string)
    ensures IsDigits(r)
    ensures |r| > 1 ==> r[0] != '0'
  {
    if n < 10 then [DigitChar(n)]
    else
      var r := NatToString(n / 10) + [DigitChar(n % 10)];
      AllAppend(IsDigit, NatToString(n / 10), [DigitChar(n % 10)]);
      r
  }

  /** `str(i)` for any integer. */
  function IntToString(i: int): string {
    if i < 0 then "-" + NatToString(-i) else NatToString(i)
  }

  /** Reads a decimal string back, the inverse of NatToString. */
  function ParseDigits(s: string): nat
    requires All(IsDigit, s)
  {
    if s == [] then 0
    else
      AllLast(IsDigit, s);
      ParseDigits(s[..|s| - 1]) * 10 + (s[|s| - 1] as int - '0' as int)
  }

  lemma {:induction false} NatToStringRoundTrip(n: nat)
    ensures ParseDigits(NatToString(n)) == n
  {
    if n >= 10 {
      NatToStringRoundTrip(n / 10);
      var r := NatToString(n);
      assert r[..|r| - 1] == NatToString(n / 10);
    }
  }

  // ---------------------------------------------------------------- join

  /** `sep.join(parts)`. */
  function Join(parts: seq<string>, sep: string): (r: string)
    ensures parts == [] ==> r == ""
    ensures |parts| == 1 ==> r == parts[0]
  {
    if parts == [] then ""
    else if |parts| == 1 then parts[0]
    else parts[0] + sep + Join(parts[1..], sep)
  }

  /** `entry(start, xs[0]) + entry(start + 1, xs[1]) + ...`: the entries of
      `enumerate(xs, start)`, concatenated. */
  function Numbered<T>(entry: (int, T) -> string, xs: seq<T>, start: int): string
    decreases |xs|
  {
    if xs == [] then "" else entry(start, xs[0]) + Numbered(entry, xs[1..], start + 1)
  }

  /** Numbering continues across a split. */
  lemma {:induction false} NumberedSplit<T>(entry: (int, T) -> string, a: seq<T>, b: seq<T>, start: int)
    ensures Numbered(entry, a + b, start) == Numbered(entry, a, start) + Numbered(entry, b, start + |a|)
    decreases |a|
  {
    if a == [] {
      assert a + b == b;
    } else {
      assert (a + b)[0] == a[0] && (a + b)[1..] == a[1..] + b;
      NumberedSplit(entry, a[1..], b, start + 1);
      var e := entry(start, a[0]);
      var x, y := Numbered(entry, a[1..], start + 1), Numbered(entry, b, start + |a|);
      assert e + (x + y) == (e + x) + y;
    }
  }

  /** The element at position `k` is rendered with number `start + k`, after
      the entries of the elements before it. */
  lemma NumberedAt<T>(entry: (int, T) -> string, xs: seq<T>, k: int, start: int)
    requires 0 <= k < |xs|
    ensures Numbered(entry, xs, start) ==
      Numbered(entry, xs[..k], start) + (entry(start + k, xs[k]) + Numbered(entry, xs[k + 1..], start + k + 1))
  {
    assert xs == xs[..k] + xs[k..];
    NumberedSplit(entry, xs[..k], xs[k..], start);
    assert xs[k..][0] == xs[k] && xs[k..][1..] == xs[k + 1..];
  }

  /** Appending one element appends its entry, numbered after the others. */
  lemma NumberedAppend<T>(entry: (int, T) -> string, xs: seq<T>, x: T, start: int)
    ensures Numbered(entry, xs + [x], start) == Numbered(entry, xs, start) + entry(start + |xs|, x)
  {
    NumberedSplit(entry, xs, [x], start);
    assert [x][1..] == [];
    assert entry(start + |xs|, x) + "" == entry(start + |xs|, x);
  }
}
