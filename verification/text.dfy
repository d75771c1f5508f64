/** The JavaScript string built-ins the scheduler relies on: `trim`, `split`,
    `toLowerCase`, `includes`, `length` (in UTF-16 code units), `Number` on a
    digit string, `toString` of a natural number and `padStart`. */
module Text {

  /** The characters `String.prototype.trim` strips and the regular-expression
      class `\s` matches: ECMAScript's WhiteSpace and LineTerminator sets. */
  predicate IsWhitespace(c: char) {
    var n := c as int;
    || (9 <= n <= 13) || n == 32 || n == 0xA0 || n == 0x1680 || (0x2000 <= n <= 0x200A)
    || n == 0x2028 || n == 0x2029 || n == 0x202F || n == 0x205F || n == 0x3000 || n == 0xFEFF
  }

  predicate AllWhitespace(s: string) {
    forall i :: 0 <= i < |s| ==> IsWhitespace(s[i])
  }

  /** The position of the first non-whitespace character at or after `from`,
      or `|s|` when there is none. */
  function SkipWhitespace(s: string, from: nat): (i: nat)
    requires from <= |s|
    ensures from <= i <= |s|
    decreases |s| - from
  {
    if from < |s| && IsWhitespace(s[from]) then SkipWhitespace(s, from + 1) else from
  }

  lemma {:induction false} SkipWhitespaceSkips(s: string, from: nat)
    requires from <= |s|
    ensures var i := SkipWhitespace(s, from);
      (i < |s| ==> !IsWhitespace(s[i])) && forall k :: from <= k < i ==> IsWhitespace(s[k])
    decreases |s| - from
  {
    if from < |s| && IsWhitespace(s[from]) {
      SkipWhitespaceSkips(s, from + 1);
    }
  }

  /** The position just after the last non-whitespace character before `to`,
      or 0 when there is none. */
  function SkipWhitespaceBack(s: string, to: nat): (j: nat)
    requires to <= |s|
    ensures j <= to
  {
    if to > 0 && IsWhitespace(s[to - 1]) then SkipWhitespaceBack(s, to - 1) else to
  }

  lemma {:induction false} SkipWhitespaceBackSkips(s: string, to: nat)
    requires to <= |s|
    ensures var j := SkipWhitespaceBack(s, to);
      (j > 0 ==> !IsWhitespace(s[j - 1])) && forall k :: j <= k < to ==> IsWhitespace(s[k])
  {
    if to > 0 && IsWhitespace(s[to - 1]) {
      SkipWhitespaceBackSkips(s, to - 1);
    }
  }

  /** `s.trim()`: the part of `s` between its leading and trailing whitespace. */
  function Trim(s: string): string {
    var i := SkipWhitespace(s, 0);
    var j := SkipWhitespaceBack(s, |s|);
    if i < j then s[i..j] else []
  }

  /** The trim is the slice of `s` left once its leading and trailing
      whitespace is removed: what precedes and what follows it is all
      whitespace. */
  lemma TrimStrips(s: string)
    ensures exists i :: OccursAt(s, Trim(s), i) && AllWhitespace(s[..i]) && AllWhitespace(s[i + |Trim(s)|..])
  {
    var i := SkipWhitespace(s, 0);
    var j := SkipWhitespaceBack(s, |s|);
    SkipWhitespaceSkips(s, 0);
    SkipWhitespaceBackSkips(s, |s|);
    if i < j {
      assert Trim(s) == s[i..j];
      assert OccursAt(s, Trim(s), i);
      assert AllWhitespace(s[..i]);
      assert s[i + |Trim(s)|..] == s[j..];
      assert AllWhitespace(s[j..]);
    } else {
      assert Trim(s) == [];
      assert AllWhitespace(s) by {
        forall k | 0 <= k < |s| ensures IsWhitespace(s[k]) {
        }
      }
      assert OccursAt(s, Trim(s), 0) && s[..0] == [] && s[0 + |Trim(s)|..] == s;
    }
  }

  /** The trim is a slice of `s` with no whitespace at either end, and it is
      empty exactly when `s` is made of whitespace only. */
  lemma TrimSpec(s: string)
    ensures exists i :: OccursAt(s, Trim(s), i)
    ensures Trim(s) == [] || (!IsWhitespace(Trim(s)[0]) && !IsWhitespace(Trim(s)[|Trim(s)| - 1]))
    ensures Trim(s) == [] <==> AllWhitespace(s)
  {
    var i := SkipWhitespace(s, 0);
    var j := SkipWhitespaceBack(s, |s|);
    SkipWhitespaceSkips(s, 0);
    SkipWhitespaceBackSkips(s, |s|);
    if i < j {
      assert Trim(s) == s[i..j];
      assert OccursAt(s, s[i..j], i);
    } else {
      assert Trim(s) == [];
      assert OccursAt(s, [], 0);
      assert forall k :: 0 <= k < |s| ==> IsWhitespace(s[k]) by {
        forall k | 0 <= k < |s| ensures IsWhitespace(s[k]) {
        }
      }
    }
  }

  /** Trimming a string that has no whitespace at either end changes nothing. */
  lemma TrimOfTrimmed(s: string)
    requires s == [] || (!IsWhitespace(s[0]) && !IsWhitespace(s[|s| - 1]))
    ensures Trim(s) == s
  {
    if s != [] {
      assert SkipWhitespace(s, 0) == 0;
      assert SkipWhitespaceBack(s, |s|) == |s|;
    }
  }

  /** Trimming twice is trimming once. */
  lemma TrimIdempotent(s: string)
    ensures Trim(Trim(s)) == Trim(s)
  {
    TrimSpec(s);
    TrimOfTrimmed(Trim(s));
  }

  /** `c.toLowerCase()` on the ASCII letters; every other character is kept. */
  function LowerChar(c: char): char {
    if 'A' <= c <= 'Z' then (c as int + 32) as char else c
  }

  /** `s.toLowerCase()`, character by character. */
  function ToLower(s: string): (r: string)
    ensures |r| == |s|
  {
    if s == [] then [] else [LowerChar(s[0])] + ToLower(s[1..])
  }

  lemma {:induction false} ToLowerAt(s: string, i: nat)
    requires i < |s|
    ensures ToLower(s)[i] == LowerChar(s[i])
  {
    if i > 0 {
      ToLowerAt(s[1..], i - 1);
    }
  }

  lemma {:induction false} ToLowerConcat(a: string, b: string)
    ensures ToLower(a + b) == ToLower(a) + ToLower(b)
  {
    if a == [] {
      assert a + b == b;
    } else {
      assert (a + b)[1..] == a[1..] + b;
      ToLowerConcat(a[1..], b);
    }
  }

  /** `word` occurs in `text` starting at position `i`. */
  predicate OccursAt(text: string, word: string, i: int) {
    0 <= i <= |text| - |word| && text[i..i + |word|] == word
  }

  /** `text.includes(word)`, searching from the front. */
  predicate Contains(text: string, word: string)
    decreases |text|
  {
    |word| <= |text| && (text[..|word|] == word || (text != [] && Contains(text[1..], word)))
  }

  /** The search finds `word` exactly when it occurs at some position. */
  lemma {:induction false} ContainsOccurs(text: string, word: string)
    ensures Contains(text, word) <==> exists i :: OccursAt(text, word, i)
    decreases |text|
  {
    if |word| <= |text| {
      if text[..|word|] == word {
        assert OccursAt(text, word, 0);
      } else if text != [] {
        ContainsOccurs(text[1..], word);
        if exists i :: OccursAt(text, word, i) {
          var i :| OccursAt(text, word, i);
          assert i != 0;
          assert text[1..][i - 1..i - 1 + |word|] == text[i..i + |word|];
          assert OccursAt(text[1..], word, i - 1);
        }
        if exists i :: OccursAt(text[1..], word, i) {
          var i :| OccursAt(text[1..], word, i);
          assert text[i + 1..i + 1 + |word|] == text[1..][i..i + |word|];
          assert OccursAt(text, word, i + 1);
        }
      }
    }
  }

  /** Text around an occurrence does not hide it. */
  lemma ContainsInContext(a: string, t: string, b: string, word: string)
    requires Contains(t, word)
    ensures Contains(a + t + b, word)
  {
    ContainsOccurs(t, word);
    var i :| OccursAt(t, word, i);
    var s := a + t + b;
    assert s[|a| + i..|a| + i + |word|] == t[i..i + |word|];
    assert OccursAt(s, word, |a| + i);
    ContainsOccurs(s, word);
  }

  /** `s.length`: the number of UTF-16 code units, so a character outside the
      Basic Multilingual Plane counts twice. */
  function Utf16Length(s: string): (n: nat)
    ensures |s| <= n <= 2 * |s|
  {
    if s == [] then 0 else (if s[0] as int >= 0x1_0000 then 2 else 1) + Utf16Length(s[1..])
  }

  /** A character counts two code units exactly when it lies outside the Basic
      Multilingual Plane, and lengths add up over concatenation. */
  lemma {:induction false} Utf16LengthConcat(a: string, b: string)
    ensures Utf16Length(a + b) == Utf16Length(a) + Utf16Length(b)
    ensures |a| == 1 ==> Utf16Length(a) == if a[0] as int >= 0x1_0000 then 2 else 1
  {
    if a == [] {
      assert a + b == b;
    } else {
      assert (a + b)[1..] == a[1..] + b;
      Utf16LengthConcat(a[1..], b);
    }
  }

  /** Text inside the Basic Multilingual Plane, ASCII included, has one code
      unit per character. */
  lemma {:induction false} Utf16LengthBmp(s: string)
    requires forall i :: 0 <= i < |s| ==> s[i] as int < 0x1_0000
    ensures Utf16Length(s) == |s|
  {
    if s != [] {
      Utf16LengthBmp(s[1..]);
    }
  }

  /** `s.split(sep)`: the maximal runs of `s` free of `sep`, in order; there is
      always at least one (the empty string splits into `[""]`). */
  function Split(s: string, sep: char): (parts: seq<string>)
    ensures |parts| >= 1
    ensures forall k :: 0 <= k < |parts| ==> sep !in parts[k]
  {
    if s == [] then [[]]
    else
      var rest := Split(s[1..], sep);
      if s[0] == sep then [[]] + rest else [[s[0]] + rest[0]] + rest[1..]
  }

  /** `parts.join(sep)`. */
  function Join(parts: seq<string>, sep: char): string
    requires |parts| >= 1
  {
    if |parts| == 1 then parts[0] else parts[0] + [sep] + Join(parts[1..], sep)
  }

  lemma {:induction false} JoinSplit(s: string, sep: char)
    ensures Join(Split(s, sep), sep) == s
  {
    if s != [] {
      var rest := Split(s[1..], sep);
      JoinSplit(s[1..], sep);
      if s[0] != sep {
        if |rest| > 1 {
          assert ([[s[0]] + rest[0]] + rest[1..])[1..] == rest[1..];
        }
      } else {
        assert ([[]] + rest)[1..] == rest;
      }
    }
  }

  lemma {:induction false} SplitJoin(parts: seq<string>, sep: char)
    requires |parts| >= 1
    requires forall k :: 0 <= k < |parts| ==> sep !in parts[k]
    ensures Split(Join(parts, sep), sep) == parts
    decreases |parts|, |parts[0]|
  {
    var s := Join(parts, sep);
    if parts[0] == [] {
      if |parts| > 1 {
        assert s == [sep] + Join(parts[1..], sep);
        assert s[1..] == Join(parts[1..], sep);
        SplitJoin(parts[1..], sep);
        assert parts == [[]] + parts[1..];
      }
    } else {
      var tail := [parts[0][1..]] + parts[1..];
      assert tail[1..] == parts[1..];
      assert Join(tail, sep) == s[1..] by {
        if |parts| > 1 {
          assert s[1..] == parts[0][1..] + [sep] + Join(parts[1..], sep);
        }
      }
      assert s[0] == parts[0][0];
      SplitJoin(tail, sep);
      assert [parts[0][0]] + parts[0][1..] == parts[0];
      assert parts == [parts[0]] + tail[1..];
    }
  }

  /** Every character of `s` other than `sep` ends up in one of the parts. */
  lemma {:induction false} SplitKeeps(s: string, sep: char, i: nat)
    requires i < |s| && s[i] != sep
    ensures exists k, j :: 0 <= k < |Split(s, sep)| && 0 <= j < |Split(s, sep)[k]| && Split(s, sep)[k][j] == s[i]
  {
    var parts, rest := Split(s, sep), Split(s[1..], sep);
    if i == 0 {
      assert parts[0][0] == s[0];
    } else {
      SplitKeeps(s[1..], sep, i - 1);
      var k, j :| 0 <= k < |rest| && 0 <= j < |rest[k]| && rest[k][j] == s[i];
      if s[0] == sep {
        assert parts[k + 1] == rest[k];
      } else if k == 0 {
        assert parts[0][j + 1] == s[i];
      } else {
        assert parts[k] == rest[k];
      }
    }
  }

  predicate IsDigit(c: char) {
    '0' <= c <= '9'
  }

  predicate AllDigits(s: string) {
    forall i :: 0 <= i < |s| ==> IsDigit(s[i])
  }

  function DigitChar(d: nat): (c: char)
    requires d < 10
    ensures IsDigit(c) && c as int - '0' as int == d
  {
    ('0' as int + d) as char
  }

  /** `n.toString()` for a natural number: its decimal digits, most
      significant first, without leading zeros. */
  function NatStr(n: nat): (r: string)
    ensures r != [] && AllDigits(r)
    ensures |r| > 1 ==> r[0] != '0'
  {
    if n < 10 then [DigitChar(n)] else NatStr(n / 10) + [DigitChar(n % 10)]
  }

  /** `Number(s)` for a string of decimal digits. */
  function DigitsValue(s: string): nat
    requires AllDigits(s)
  {
    if s == [] then 0 else DigitsValue(s[..|s| - 1]) * 10 + (s[|s| - 1] as int - '0' as int)
  }

  lemma {:induction false} DigitsValueOfNatStr(n: nat)
    ensures DigitsValue(NatStr(n)) == n
  {
    if n >= 10 {
      var s := NatStr(n);
      assert s[..|s| - 1] == NatStr(n / 10);
      DigitsValueOfNatStr(n / 10);
    }
  }

  lemma NatStrInjective(m: nat, n: nat)
    requires NatStr(m) == NatStr(n)
    ensures m == n
  {
    DigitsValueOfNatStr(m);
    DigitsValueOfNatStr(n);
  }

  lemma {:induction false} DigitsValueLeadingZero(s: string)
    requires AllDigits(s)
    ensures DigitsValue(['0'] + s) == DigitsValue(s)
    decreases |s|
  {
    if s != [] {
      assert (['0'] + s)[..|s|] == ['0'] + s[..|s| - 1];
      DigitsValueLeadingZero(s[..|s| - 1]);
    }
  }

  /** `n` copies of `c`. */
  function Repeat(c: char, n: nat): (r: string)
    ensures |r| == n && forall i :: 0 <= i < n ==> r[i] == c
  {
    if n == 0 then [] else [c] + Repeat(c, n - 1)
  }

  /** `s.padStart(width, fill)`: `s` prefixed with as many `fill` characters as
      it takes to reach `width`. */
  function PadStart(s: string, width: nat, fill: char): string {
    if |s| >= width then s else Repeat(fill, width - |s|) + s
  }

  lemma {:induction false} DigitsValueZeros(n: nat, s: string)
    requires AllDigits(s)
    ensures AllDigits(Repeat('0', n) + s)
    ensures DigitsValue(Repeat('0', n) + s) == DigitsValue(s)
  {
    if n > 0 {
      var z := Repeat('0', n - 1);
      assert Repeat('0', n) + s == ['0'] + (z + s);
      DigitsValueZeros(n - 1, s);
      DigitsValueLeadingZero(z + s);
    } else {
      assert Repeat('0', n) + s == s;
    }
  }

  lemma PadStartValue(s: string, width: nat)
    requires AllDigits(s)
    ensures AllDigits(PadStart(s, width, '0'))
    ensures DigitsValue(PadStart(s, width, '0')) == DigitsValue(s)
  {
    if |s| < width {
      DigitsValueZeros(width - |s|, s);
    }
  }

  /** The position of the first `c` in `s`. */
  function IndexOf(s: string, c: char): (i: nat)
    requires c in s
    ensures i < |s| && s[i] == c && c !in s[..i]
  {
    if s[0] == c then 0 else 1 + IndexOf(s[1..], c)
  }

  /** Searching past a prefix free of `c` lands in the rest, offset by the prefix. */
  lemma {:induction false} IndexOfAfter(x: string, rest: string, c: char)
    requires c !in x && c in rest
    ensures c in x + rest && IndexOf(x + rest, c) == |x| + IndexOf(rest, c)
  {
    if x == [] {
      assert x + rest == rest;
    } else {
      assert (x + rest)[1..] == x[1..] + rest;
      IndexOfAfter(x[1..], rest, c);
    }
  }
}
