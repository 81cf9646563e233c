/**
 * The Python `str` operations the modelled code relies on: `split`, `split(sep)`,
 * `replace(pat, '')`, `in`, `endswith`, `%d` / `{0:08d}` formatting and `int(...)`.
 * Each is defined once, by recursion, and paired with the lemma that pins it down
 * (a round trip or an independent characterisation).
 */
module Strings {
  import opened Wrappers

  // ---------------------------------------------------------------------------
  // Character classes

  /** Python's `str.isspace` for a single character. */
  predicate IsSpace(c: char) {
    var n := c as int;
    n == 32 || 9 <= n <= 13 || 28 <= n <= 31 || n == 0x85 || n == 0xA0 || n == 0x1680
    || 0x2000 <= n <= 0x200A || n == 0x2028 || n == 0x2029 || n == 0x202F || n == 0x205F
    || n == 0x3000
  }

  predicate IsDigit(c: char) {
    '0' <= c <= '9'
  }

  predicate AllDigits(s: string) {
    forall i | 0 <= i < |s| :: IsDigit(s[i])
  }

  predicate NoSpace(s: string) {
    forall i | 0 <= i < |s| :: !IsSpace(s[i])
  }

  predicate AllSpace(s: string) {
    forall i | 0 <= i < |s| :: IsSpace(s[i])
  }

  // ---------------------------------------------------------------------------
  // Prefixes, suffixes, substrings

  predicate StartsWith(s: string, prefix: string) {
    |prefix| <= |s| && s[..|prefix|] == prefix
  }

  /** Python's `s.endswith(suffix)`. */
  predicate EndsWith(s: string, suffix: string) {
    |suffix| <= |s| && s[|s| - |suffix|..] == suffix
  }

  /** Python's `sub in s` (and `s.find(sub) >= 0`). */
  predicate Contains(s: string, sub: string)
    decreases |s|
  {
    StartsWith(s, sub) || (s != [] && Contains(s[1..], sub))
  }

  lemma {:induction false} ContainsAt(s: string, sub: string, i: nat)
    requires i + |sub| <= |s| && s[i..i + |sub|] == sub
    ensures Contains(s, sub)
    decreases i
  {
    if i > 0 {
      assert s[1..][i - 1..i - 1 + |sub|] == sub;
      ContainsAt(s[1..], sub, i - 1);
    }
  }

  // ---------------------------------------------------------------------------
  // Joining and splitting

  /** Python's `sep.join(parts)`. */
  function Join(parts: seq<string>, sep: string): string
    decreases |parts|
  {
    if |parts| == 0 then ""
    else if |parts| == 1 then parts[0]
    else parts[0] + sep + Join(parts[1..], sep)
  }

  /**
   * Python's `s.split(sep)` for a one-character separator: empty pieces are kept,
   * so the result is never empty and `Join` undoes it (see SplitJoin, JoinSplit).
   */
  function Split(s: string, sep: char): (parts: seq<string>)
    ensures |parts| >= 1
    ensures forall i | 0 <= i < |parts| :: sep !in parts[i]
    decreases |s|
  {
    if s == [] then [""]
    else
      var rest := Split(s[1..], sep);
      if s[0] == sep then [""] + rest
      else [[s[0]] + rest[0]] + rest[1..]
  }

  lemma {:induction false} SplitJoin(s: string, sep: char)
    ensures Join(Split(s, sep), [sep]) == s
    decreases |s|
  {
    if s != [] {
      var rest := Split(s[1..], sep);
      SplitJoin(s[1..], sep);
      if s[0] == sep {
        assert Split(s, sep) == [""] + rest;
        assert ([""] + rest)[1..] == rest;
      } else {
        var parts := Split(s, sep);
        assert parts == [[s[0]] + rest[0]] + rest[1..];
        if |rest| == 1 {
          assert Join(rest, [sep]) == rest[0];
        } else {
          assert parts[1..] == rest[1..];
          assert Join(rest, [sep]) == rest[0] + [sep] + Join(rest[1..], [sep]);
        }
      }
    }
  }

  lemma {:induction false} JoinSplit(parts: seq<string>, sep: char)
    requires |parts| >= 1
    requires forall i | 0 <= i < |parts| :: sep !in parts[i]
    ensures Split(Join(parts, [sep]), sep) == parts
    decreases |parts|, |parts[0]|
  {
    var head := parts[0];
    if head == [] {
      if |parts| > 1 {
        var tail := Join(parts[1..], [sep]);
        assert Join(parts, [sep]) == [sep] + tail;
        assert ([sep] + tail)[1..] == tail;
        JoinSplit(parts[1..], sep);
        assert [""] + parts[1..] == parts;
      }
    } else {
      var shorter := [head[1..]] + parts[1..];
      assert shorter[1..] == parts[1..];
      assert forall i | 0 <= i < |shorter| :: sep !in shorter[i] by {
        forall i | 0 <= i < |shorter| ensures sep !in shorter[i] {
          if i == 0 {
            assert forall c | c in head[1..] :: c in head;
          } else {
            assert shorter[i] == parts[i];
          }
        }
      }
      JoinSplit(shorter, sep);
      var whole := Join(parts, [sep]);
      var rest := Join(shorter, [sep]);
      if |parts| == 1 {
        assert whole == head && rest == head[1..];
      } else {
        assert whole == head + [sep] + Join(parts[1..], [sep]);
        assert rest == head[1..] + [sep] + Join(parts[1..], [sep]);
      }
      assert whole == [head[0]] + rest;
      assert whole[1..] == rest;
      assert head[0] != sep by { assert head[0] in head; }
      assert [head[0]] + head[1..] == head;
      assert [[head[0]] + shorter[0]] + shorter[1..] == [head] + parts[1..];
      assert [head] + parts[1..] == parts;
    }
  }

  /** Joining two non-empty lists is joining each and putting one separator between them. */
  lemma {:induction false} JoinAppend(a: seq<string>, b: seq<string>, sep: string)
    requires |a| >= 1 && |b| >= 1
    ensures Join(a + b, sep) == Join(a, sep) + sep + Join(b, sep)
    decreases |a|
  {
    if |a| == 1 {
      assert (a + b)[1..] == b;
    } else {
      assert (a + b)[1..] == a[1..] + b;
      JoinAppend(a[1..], b, sep);
    }
  }

  /** Number of leading characters of `s` that are not whitespace. */
  function WordLength(s: string): (n: nat)
    ensures n <= |s|
    ensures forall i | 0 <= i < n :: !IsSpace(s[i])
    ensures n < |s| ==> IsSpace(s[n])
    decreases |s|
  {
    if s == [] || IsSpace(s[0]) then 0 else 1 + WordLength(s[1..])
  }

  /**
   * Python's `s.split()` with no argument: the maximal runs of non-whitespace
   * characters, in order; no piece is empty.
   */
  function SplitWhitespace(s: string): (words: seq<string>)
    ensures forall i | 0 <= i < |words| :: words[i] != "" && NoSpace(words[i])
    decreases |s|
  {
    if s == [] then []
    else if IsSpace(s[0]) then SplitWhitespace(s[1..])
    else
      var n := WordLength(s);
      [s[..n]] + SplitWhitespace(s[n..])
  }

  /** The non-whitespace characters of `s`, in order (an independent definition). */
  function RemoveSpaces(s: string): (r: string)
    decreases |s|
  {
    if s == [] then ""
    else if IsSpace(s[0]) then RemoveSpaces(s[1..])
    else [s[0]] + RemoveSpaces(s[1..])
  }

  lemma {:induction false} RemoveSpacesAppend(a: string, b: string)
    ensures RemoveSpaces(a + b) == RemoveSpaces(a) + RemoveSpaces(b)
    decreases |a|
  {
    if a == [] {
      assert a + b == b;
    } else {
      var ab := a + b;
      assert ab[0] == a[0];
      assert ab[1..] == a[1..] + b;
      RemoveSpacesAppend(a[1..], b);
      if IsSpace(a[0]) {
        assert RemoveSpaces(ab) == RemoveSpaces(a[1..] + b);
        assert RemoveSpaces(a) == RemoveSpaces(a[1..]);
      } else {
        assert RemoveSpaces(ab) == [a[0]] + RemoveSpaces(a[1..] + b);
        assert RemoveSpaces(a) == [a[0]] + RemoveSpaces(a[1..]);
      }
    }
  }

  lemma {:induction false} RemoveSpacesOfWord(w: string)
    requires NoSpace(w)
    ensures RemoveSpaces(w) == w
    decreases |w|
  {
    if w != [] {
      RemoveSpacesOfWord(w[1..]);
      assert [w[0]] + w[1..] == w;
    }
  }

  /** Splitting on whitespace loses exactly the whitespace: no other character is dropped or moved. */
  lemma {:induction false} SplitWhitespaceKeepsText(s: string)
    ensures Join(SplitWhitespace(s), "") == RemoveSpaces(s)
    decreases |s|
  {
    if s != [] {
      if IsSpace(s[0]) {
        SplitWhitespaceKeepsText(s[1..]);
      } else {
        var n := WordLength(s);
        var rest := SplitWhitespace(s[n..]);
        SplitWhitespaceKeepsText(s[n..]);
        assert SplitWhitespace(s) == [s[..n]] + rest;
        assert Join([s[..n]] + rest, "") == s[..n] + Join(rest, "") by {
          if rest != [] {
            assert ([s[..n]] + rest)[1..] == rest;
          }
        }
        assert s == s[..n] + s[n..];
        RemoveSpacesAppend(s[..n], s[n..]);
        RemoveSpacesOfWord(s[..n]);
      }
    }
  }

  lemma {:induction false} WordLengthOfJoin(w: string, rest: string)
    requires NoSpace(w)
    requires rest == [] || IsSpace(rest[0])
    ensures WordLength(w + rest) == |w|
    decreases |w|
  {
    if w != [] {
      assert (w + rest)[1..] == w[1..] + rest;
      WordLengthOfJoin(w[1..], rest);
    } else {
      assert w + rest == rest;
    }
  }

  lemma {:induction false} SplitWhitespaceSkipsSpaces(pad: string, s: string)
    requires AllSpace(pad)
    ensures SplitWhitespace(pad + s) == SplitWhitespace(s)
    decreases |pad|
  {
    if pad != [] {
      assert (pad + s)[1..] == pad[1..] + s;
      SplitWhitespaceSkipsSpaces(pad[1..], s);
    } else {
      assert pad + s == s;
    }
  }

  /** Joining whitespace-free, non-empty words with one blank and splitting again gives the words back. */
  lemma {:induction false} SplitWhitespaceRoundTrip(words: seq<string>)
    requires forall i | 0 <= i < |words| :: words[i] != "" && NoSpace(words[i])
    ensures SplitWhitespace(Join(words, " ")) == words
    decreases |words|
  {
    if words != [] {
      var w := words[0];
      var rest := if |words| == 1 then "" else " " + Join(words[1..], " ");
      assert Join(words, " ") == w + rest;
      WordLengthOfJoin(w, rest);
      assert (w + rest)[..|w|] == w;
      assert (w + rest)[|w|..] == rest;
      if |words| > 1 {
        SplitWhitespaceSkipsSpaces(" ", Join(words[1..], " "));
        SplitWhitespaceRoundTrip(words[1..]);
      }
      assert [w] + words[1..] == words;
    }
  }

  /** `seps[0] + words[0] + seps[1] + … + words[n-1] + seps[n]`. */
  function Interleave(words: seq<string>, seps: seq<string>): string
    requires |seps| == |words| + 1
    decreases |words|
  {
    if words == [] then seps[0] else seps[0] + words[0] + Interleave(words[1..], seps[1..])
  }

  /** Whitespace separators around `n` words: non-empty between two words, possibly empty at either end. */
  predicate Separators(seps: seq<string>, n: nat) {
    && |seps| == n + 1
    && (forall i | 0 <= i < |seps| :: AllSpace(seps[i]))
    && (forall i | 0 < i < n :: seps[i] != "")
  }

  /** Words laid out with any whitespace runs between and around them split back into those words. */
  lemma {:induction false} SplitWhitespaceOfLayout(words: seq<string>, seps: seq<string>)
    requires forall i | 0 <= i < |words| :: words[i] != "" && NoSpace(words[i])
    requires Separators(seps, |words|)
    ensures SplitWhitespace(Interleave(words, seps)) == words
    decreases |words|
  {
    if words == [] {
      SplitWhitespaceSkipsSpaces(seps[0], "");
      assert seps[0] + "" == seps[0];
    } else {
      var w := words[0];
      var rest := Interleave(words[1..], seps[1..]);
      assert Separators(seps[1..], |words| - 1);
      SplitWhitespaceOfLayout(words[1..], seps[1..]);
      assert rest == [] || IsSpace(rest[0]) by {
        if |words| > 1 {
          assert rest == seps[1] + words[1] + Interleave(words[2..], seps[2..]);
          assert rest[0] == seps[1][0];
        } else {
          assert rest == seps[1];
        }
      }
      assert Interleave(words, seps) == seps[0] + (w + rest);
      SplitWhitespaceSkipsSpaces(seps[0], w + rest);
      WordLengthOfJoin(w, rest);
      assert (w + rest)[..|w|] == w;
      assert (w + rest)[|w|..] == rest;
      assert [w] + words[1..] == words;
    }
  }

  /** The whitespace runs of `s` before, between and after its words: what `s.split()` drops. */
  function Gaps(s: string): (seps: seq<string>)
    ensures |seps| == |SplitWhitespace(s)| + 1
    decreases |s|
  {
    if s == [] then [""]
    else if IsSpace(s[0]) then
      var g := Gaps(s[1..]);
      [[s[0]] + g[0]] + g[1..]
    else
      [""] + Gaps(s[WordLength(s)..])
  }

  /** The gaps of `s` are whitespace, and those between two words are not empty. */
  lemma {:induction false} GapsAreSeparators(s: string)
    ensures Separators(Gaps(s), |SplitWhitespace(s)|)
    decreases |s|
  {
    if s == [] {
    } else if IsSpace(s[0]) {
      GapsAreSeparators(s[1..]);
    } else {
      var t := s[WordLength(s)..];
      GapsAreSeparators(t);
      assert SplitWhitespace(t) != [] ==> Gaps(t)[0] != "" by {
        if SplitWhitespace(t) != [] {
          assert t != [] && IsSpace(t[0]);
        }
      }
    }
  }

  /** Every string is its `split()` words laid out with whitespace separators. */
  lemma SplitWhitespaceLayout(s: string)
    ensures Separators(Gaps(s), |SplitWhitespace(s)|)
    ensures Interleave(SplitWhitespace(s), Gaps(s)) == s
  {
    GapsAreSeparators(s);
    InterleaveGaps(s);
  }

  /** Growing the first separator grows the front of the layout. */
  lemma InterleaveWiderFirstGap(pad: string, words: seq<string>, seps: seq<string>)
    requires |seps| == |words| + 1
    ensures Interleave(words, [pad + seps[0]] + seps[1..]) == pad + Interleave(words, seps)
  {
    var wider := [pad + seps[0]] + seps[1..];
    assert wider[1..] == seps[1..];
  }

  /** A word in front, with an empty separator before it. */
  lemma InterleaveWordFirst(w: string, words: seq<string>, seps: seq<string>)
    requires |seps| == |words| + 1
    ensures Interleave([w] + words, [""] + seps) == w + Interleave(words, seps)
  {
    assert ([w] + words)[1..] == words;
    assert ([""] + seps)[1..] == seps;
  }

  /** Putting the gaps back between the words of `s` rebuilds `s`. */
  lemma {:induction false} InterleaveGaps(s: string)
    ensures Interleave(SplitWhitespace(s), Gaps(s)) == s
    decreases |s|
  {
    if s == [] {
    } else if IsSpace(s[0]) {
      var t := s[1..];
      InterleaveGaps(t);
      InterleaveWiderFirstGap([s[0]], SplitWhitespace(t), Gaps(t));
      assert s == [s[0]] + t;
    } else {
      var n := WordLength(s);
      var t := s[n..];
      InterleaveGaps(t);
      InterleaveWordFirst(s[..n], SplitWhitespace(t), Gaps(t));
      assert s == s[..n] + t;
    }
  }

  // ---------------------------------------------------------------------------
  // Removing a pattern: Python's `s.replace(pat, '')`

  /** Python's `s.replace(pat, '')`: left-to-right, non-overlapping occurrences are dropped. */
  function RemoveAll(s: string, pat: string): (r: string)
    requires pat != ""
    ensures |r| <= |s|
    decreases |s|
  {
    if StartsWith(s, pat) then RemoveAll(s[|pat|..], pat)
    else if s == [] then ""
    else [s[0]] + RemoveAll(s[1..], pat)
  }

  /** The characters of `s` other than `c`, in order (an independent definition). */
  function Without(s: string, c: char): string
    decreases |s|
  {
    if s == [] then "" else if s[0] == c then Without(s[1..], c) else [s[0]] + Without(s[1..], c)
  }

  /** Removing a one-character pattern keeps every other character in order and leaves none of `c`. */
  lemma {:induction false} RemoveCharIsWithout(s: string, c: char)
    ensures RemoveAll(s, [c]) == Without(s, c)
    ensures c !in RemoveAll(s, [c])
    decreases |s|
  {
    if s != [] {
      RemoveCharIsWithout(s[1..], c);
      assert StartsWith(s, [c]) <==> s[0] == c;
      assert [c][..] == [c];
    }
  }

  /** A file name `base + ".py"` whose base has no `.` loses exactly its extension. */
  lemma {:induction false} RemovePyExtension(base: string)
    requires '.' !in base
    ensures RemoveAll(base + ".py", ".py") == base
    decreases |base|
  {
    if base == [] {
      assert StartsWith(".py", ".py");
      assert ".py"[3..] == "";
    } else {
      assert !StartsWith(base + ".py", ".py") by { assert (base + ".py")[0] == base[0]; }
      assert (base + ".py")[1..] == base[1..] + ".py";
      RemovePyExtension(base[1..]);
      assert [base[0]] + base[1..] == base;
    }
  }

  // ---------------------------------------------------------------------------
  // Decimal formatting and parsing

  function DigitChar(d: nat): (c: char)
    requires d < 10
    ensures IsDigit(c)
  {
    ('0' as int + d) as char
  }

  function DigitValue(c: char): nat
    requires IsDigit(c)
  {
    c as int - '0' as int
  }

  /** `str(n)` / `'%d' % n` for a natural number: no sign, no leading zero. */
  function NatToString(n: nat): (s: string)
    ensures |s| >= 1 && AllDigits(s)
    ensures |s| > 1 ==> s[0] != '0'
    decreases n
  {
    if n < 10 then [DigitChar(n)] else NatToString(n / 10) + [DigitChar(n % 10)]
  }

  /** `'%d' % i` for any integer. */
  function IntToString(i: int): (s: string)
    ensures |s| >= 1
  {
    if i < 0 then "-" + NatToString(-i) else NatToString(i)
  }

  /** The value of a string of decimal digits (the empty string counts as 0). */
  function DigitsValue(s: string): nat
    requires AllDigits(s)
    decreases |s|
  {
    if s == [] then 0 else DigitsValue(s[..|s| - 1]) * 10 + DigitValue(s[|s| - 1])
  }

  lemma {:induction false} NatToStringValue(n: nat)
    ensures DigitsValue(NatToString(n)) == n
    decreases n
  {
    if n >= 10 {
      var s := NatToString(n);
      NatToStringValue(n / 10);
      assert s[..|s| - 1] == NatToString(n / 10);
    }
  }

  function Zeros(k: nat): (z: string)
    ensures |z| == k && AllDigits(z)
    ensures forall i | 0 <= i < k :: z[i] == '0'
  {
    seq(k, _ => '0')
  }

  lemma {:induction false} LeadingZerosValue(k: nat, s: string)
    requires AllDigits(s)
    ensures AllDigits(Zeros(k) + s) && DigitsValue(Zeros(k) + s) == DigitsValue(s)
    decreases |s|
  {
    var z := Zeros(k) + s;
    if s == [] {
      assert z == Zeros(k);
      ZerosValue(k);
    } else {
      assert z[..|z| - 1] == Zeros(k) + s[..|s| - 1];
      LeadingZerosValue(k, s[..|s| - 1]);
    }
  }

  lemma {:induction false} ZerosValue(k: nat)
    ensures DigitsValue(Zeros(k)) == 0
    decreases k
  {
    if k > 0 {
      assert Zeros(k)[..k - 1] == Zeros(k - 1);
      ZerosValue(k - 1);
    }
  }

  /** Python's `'{0:0<width>d}'.format(n)` for n >= 0: zero-padded on the left to at least `width` digits. */
  function ZeroPad(n: nat, width: nat): (s: string)
    ensures AllDigits(s)
    ensures |s| == if |NatToString(n)| < width then width else |NatToString(n)|
  {
    var digits := NatToString(n);
    if |digits| < width then Zeros(width - |digits|) + digits else digits
  }

  /** Reading a zero-padded number back gives the number: distinct numbers never share a padded form. */
  lemma ZeroPadValue(n: nat, width: nat)
    ensures DigitsValue(ZeroPad(n, width)) == n
  {
    var digits := NatToString(n);
    NatToStringValue(n);
    if |digits| < width {
      assert ZeroPad(n, width) == Zeros(width - |digits|) + digits;
      LeadingZerosValue(width - |digits|, digits);
    } else {
      assert ZeroPad(n, width) == digits;
    }
  }

  lemma ZeroPadInjective(i: nat, j: nat, width: nat)
    requires ZeroPad(i, width) == ZeroPad(j, width)
    ensures i == j
  {
    ZeroPadValue(i, width);
    ZeroPadValue(j, width);
  }

  /** Python's `s.lstrip()`. */
  function TrimLeft(s: string): (r: string)
    ensures r == [] || !IsSpace(r[0])
    decreases |s|
  {
    if s != [] && IsSpace(s[0]) then TrimLeft(s[1..]) else s
  }

  /** Python's `s.rstrip()`. */
  function TrimRight(s: string): (r: string)
    ensures r == [] || !IsSpace(r[|r| - 1])
    decreases |s|
  {
    if s != [] && IsSpace(s[|s| - 1]) then TrimRight(s[..|s| - 1]) else s
  }

  /**
   * Python's `int(s)` on a string: surrounding whitespace is ignored, then an
   * optional sign and at least one decimal digit; anything else is a ValueError (None).
   */
  function ParseInt(s: string): (r: Option<int>)
  {
    var t := TrimRight(TrimLeft(s));
    if |t| >= 2 && (t[0] == '-' || t[0] == '+') && AllDigits(t[1..]) then
      Some(if t[0] == '-' then -(DigitsValue(t[1..]) as int) else DigitsValue(t[1..]))
    else if |t| >= 1 && AllDigits(t) then Some(DigitsValue(t))
    else None
  }

  lemma {:induction false} TrimLeftPadding(pad: string, s: string)
    requires AllSpace(pad)
    requires s != [] && !IsSpace(s[0])
    ensures TrimLeft(pad + s) == s
    decreases |pad|
  {
    if pad == [] {
      assert pad + s == s;
    } else {
      assert (pad + s)[1..] == pad[1..] + s;
      TrimLeftPadding(pad[1..], s);
    }
  }

  /** `int` reads back what `%d` wrote, also after leading whitespace. */
  lemma ParseIntRoundTrip(pad: string, i: int)
    requires AllSpace(pad)
    ensures ParseInt(pad + IntToString(i)) == Some(i)
  {
    var s := IntToString(i);
    var digits := NatToString(if i < 0 then -i else i);
    assert !IsSpace(s[0]);
    TrimLeftPadding(pad, s);
    assert !IsSpace(s[|s| - 1]);
    assert TrimRight(s) == s;
    NatToStringValue(if i < 0 then -i else i);
    if i < 0 {
      assert s[1..] == digits;
    } else {
      assert s[0] != '-' && s[0] != '+';
    }
  }
}
