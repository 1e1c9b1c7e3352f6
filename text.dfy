// The handful of Python string operations the harness relies on:
// str.split with a one-character separator, str.join, str.startswith,
// str.strip with Python's whitespace, ASCII str.lower and int() on decimal text.
module Text {
  import opened Basics

  predicate IsDigit(c: char) { '0' <= c <= '9' }

  /** Python's whitespace (`str.isspace()`), the characters str.strip() and
      int() ignore at the ends: the ASCII controls 9-13 and 28-31, the space,
      U+0085, U+00A0 and the Unicode space separators and line separators. */
  predicate IsSpace(c: char)
  {
    if c <= ' ' then '\U{09}' <= c <= '\U{0D}' || '\U{1C}' <= c
    else '\U{85}' <= c && OtherSpace(c)
  }

  /** The whitespace characters above ASCII. */
  predicate OtherSpace(c: char)
  {
    || c == '\U{85}' || c == '\U{A0}' || c == '\U{1680}'
    || '\U{2000}' <= c <= '\U{200A}'
    || c == '\U{2028}' || c == '\U{2029}' || c == '\U{202F}' || c == '\U{205F}' || c == '\U{3000}'
  }

  predicate StartsWith(s: string, prefix: string)
  {
    |prefix| <= |s| && s[..|prefix|] == prefix
  }

  /** A prefix of a prefix is a prefix, whatever is appended afterwards. */
  lemma StartsWithExtended(s: string, t: string, p: string, q: string)
    requires StartsWith(s, p) && StartsWith(p, q)
    ensures StartsWith(s + t, q)
  {
    assert (s + t)[..|q|] == s[..|p|][..|q|];
  }

  /** `s.split(c)`: the pieces between occurrences of `c`, empty pieces kept. */
  function Split(s: string, c: char): (parts: seq<string>)
    ensures |parts| >= 1
    decreases |s|
  {
    if s == [] then [""]
    else if s[0] == c then [""] + Split(s[1..], c)
    else
      var rest := Split(s[1..], c);
      [[s[0]] + rest[0]] + rest[1..]
  }

  /** `c.join(parts)`. */
  function Join(parts: seq<string>, c: char): string
  {
    if |parts| == 0 then ""
    else if |parts| == 1 then parts[0]
    else parts[0] + [c] + Join(parts[1..], c)
  }

  /** `s.split(c)[-1]`. */
  function LastPiece(s: string, c: char): string
  {
    var parts := Split(s, c);
    parts[|parts| - 1]
  }

  predicate NoneContains(parts: seq<string>, c: char)
  {
    forall i :: 0 <= i < |parts| ==> c !in parts[i]
  }

  lemma {:induction false} SplitPiecesFree(s: string, c: char)
    ensures NoneContains(Split(s, c), c)
    decreases |s|
  {
    if s != [] {
      SplitPiecesFree(s[1..], c);
    }
  }

  lemma {:induction false} JoinSplit(s: string, c: char)
    ensures Join(Split(s, c), c) == s
    decreases |s|
  {
    if s != [] {
      JoinSplit(s[1..], c);
      var rest := Split(s[1..], c);
      if s[0] != c {
        if |rest| > 1 {
          assert rest == [rest[0]] + rest[1..];
          assert Join(rest, c) == rest[0] + [c] + Join(rest[1..], c);
          var parts := [[s[0]] + rest[0]] + rest[1..];
          assert parts[1..] == rest[1..];
        }
      }
    }
  }

  lemma {:induction false} SplitJoin(parts: seq<string>, c: char)
    requires |parts| >= 1
    requires NoneContains(parts, c)
    ensures Split(Join(parts, c), c) == parts
    decreases |parts|, |parts[0]|
  {
    if |parts| == 1 {
      SplitFree(parts[0], c);
    } else if parts[0] == [] {
      assert Join(parts, c) == [c] + Join(parts[1..], c);
      assert ([c] + Join(parts[1..], c))[1..] == Join(parts[1..], c);
      SplitJoin(parts[1..], c);
    } else {
      var p := parts[0];
      var shorter := [p[1..]] + parts[1..];
      assert p[1..] == p[1..] && c !in p[1..];
      assert NoneContains(shorter, c) by {
        forall i | 0 <= i < |shorter| ensures c !in shorter[i] {
          if i > 0 { assert shorter[i] == parts[i]; }
        }
      }
      SplitJoin(shorter, c);
      assert shorter[1..] == parts[1..];
      assert Join(shorter, c) == p[1..] + [c] + Join(parts[1..], c);
      assert Join(parts, c) == [p[0]] + Join(shorter, c);
      assert p[0] != c;
      assert ([p[0]] + Join(shorter, c))[1..] == Join(shorter, c);
      assert [p[0]] + p[1..] == p;
    }
  }

  /** The first piece of a split is a prefix of the string; when there are
      more pieces, a separator follows it and the rest splits into them. */
  lemma {:induction false} SplitHead(s: string, c: char)
    ensures var parts := Split(s, c);
      && |parts[0]| <= |s| && s[..|parts[0]|] == parts[0]
      && (|parts| >= 2 ==> |parts[0]| < |s| && s[|parts[0]|] == c && Split(s[|parts[0]| + 1..], c) == parts[1..])
    decreases |s|
  {
    if s != [] {
      if s[0] == c {
        assert ([""] + Split(s[1..], c))[1..] == Split(s[1..], c);
      } else {
        var rest := Split(s[1..], c);
        SplitHead(s[1..], c);
        var parts := Split(s, c);
        assert parts[0] == [s[0]] + rest[0] && parts[1..] == rest[1..];
        assert s[..|parts[0]|] == [s[0]] + s[1..][..|rest[0]|];
        if |parts| >= 2 {
          assert s[|parts[0]| + 1..] == s[1..][|rest[0]| + 1..];
        }
      }
    }
  }

  /** A split into one piece gives back the whole string. */
  lemma SplitOne(s: string, c: char)
    requires |Split(s, c)| == 1
    ensures Split(s, c) == [s]
  {
    JoinSplit(s, c);
  }

  /** The last piece of a split is a suffix of the string, and when the
      string holds the separator, a separator comes just before it. */
  lemma {:induction false} LastPieceSuffix(s: string, c: char)
    ensures var p := LastPiece(s, c);
      && |p| <= |s| && s[|s| - |p|..] == p
      && (c in s ==> |p| < |s| && s[|s| - |p| - 1] == c)
    decreases |s|
  {
    if s != [] {
      var t := s[1..];
      var rest := Split(t, c);
      LastPieceSuffix(t, c);
      assert s[|s| - |LastPiece(t, c)|..] == t[|t| - |LastPiece(t, c)|..];
      if s[0] == c {
        assert Split(s, c) == [""] + rest;
        assert LastPiece(s, c) == LastPiece(t, c);
        if c !in t {
          SplitFree(t, c);
        }
      } else if |rest| > 1 {
        assert LastPiece(s, c) == LastPiece(t, c);
        if c !in t {
          SplitFree(t, c);
        }
        assert c in s ==> c in t;
      } else {
        SplitOne(t, c);
        SplitPiecesFree(t, c);
        assert LastPiece(s, c) == [s[0]] + t == s;
        assert c !in t;
      }
    }
  }

  lemma SplitTwo(a: string, b: string, c: char)
    requires c !in a && c !in b
    ensures Split(a + [c] + b, c) == [a, b]
  {
    assert Join([a, b], c) == a + [c] + b by {
      assert [a, b][1..] == [b];
    }
    SplitJoin([a, b], c);
  }

  /** Splitting after a first piece free of `c` yields that piece first. */
  lemma {:induction false} SplitCons(a: string, b: string, c: char)
    requires c !in a
    ensures Split(a + [c] + b, c) == [a] + Split(b, c)
    decreases |a|
  {
    if a == [] {
      assert (a + [c] + b)[1..] == b;
    } else {
      SplitCons(a[1..], b, c);
      assert (a + [c] + b)[1..] == a[1..] + [c] + b;
      assert [a[0]] + a[1..] == a;
    }
  }

  lemma {:induction false} SplitFree(s: string, c: char)
    requires c !in s
    ensures Split(s, c) == [s]
    decreases |s|
  {
    if s != [] {
      SplitFree(s[1..], c);
      assert [s[0]] + s[1..] == s;
    }
  }

  /** ASCII `str.lower()` of one character. */
  function LowerChar(ch: char): char
  {
    if 'A' <= ch <= 'Z' then (ch as int - 'A' as int + 'a' as int) as char else ch
  }

  function Lower(s: string): (r: string)
    ensures |r| == |s|
    ensures forall i :: 0 <= i < |s| ==> r[i] == LowerChar(s[i])
  {
    if s == [] then [] else [LowerChar(s[0])] + Lower(s[1..])
  }

  /** `s.rstrip()`: drops trailing whitespace and nothing else. */
  function StripEnd(s: string): (r: string)
    ensures |r| <= |s| && r == s[..|r|]
    ensures r == [] || !IsSpace(r[|r| - 1])
    ensures forall i :: |r| <= i < |s| ==> IsSpace(s[i])
  {
    if s == [] || !IsSpace(s[|s| - 1]) then s else StripEnd(s[..|s| - 1])
  }

  /** `s.lstrip()`. */
  function StripStart(s: string): (r: string)
    ensures |r| <= |s| && r == s[|s| - |r|..]
    ensures r == [] || !IsSpace(r[0])
    ensures forall i :: 0 <= i < |s| - |r| ==> IsSpace(s[i])
  {
    if s == [] || !IsSpace(s[0]) then s else StripStart(s[1..])
  }

  /** `s.strip()`. */
  function Strip(s: string): string
  {
    StripEnd(StripStart(s))
  }

  function DigitValue(c: char): nat
    requires IsDigit(c)
  {
    c as int - '0' as int
  }

  predicate AllDigits(s: string)
  {
    forall i :: 0 <= i < |s| ==> IsDigit(s[i])
  }

  /** The value of a run of decimal digits, most significant first. */
  function DigitsValue(ds: string): nat
    requires AllDigits(ds)
  {
    if ds == [] then 0 else DigitsValue(ds[..|ds| - 1]) * 10 + DigitValue(ds[|ds| - 1])
  }

  /** Python's `int(s)` on decimal text: surrounding whitespace, an optional
      sign and at least one digit; anything else raises ValueError (None). */
  function ParseInt(s: string): (r: Option<int>)
    ensures r.Some? ==> Strip(s) != ""
  {
    var t := Strip(s);
    if t == [] then None
    else
      var negative := t[0] == '-';
      var ds := if t[0] == '-' || t[0] == '+' then t[1..] else t;
      if ds == [] || !AllDigits(ds) then None
      else if negative then Some(-(DigitsValue(ds) as int))
      else Some(DigitsValue(ds))
  }

  function DigitChar(d: nat): char
    requires d < 10
  {
    ('0' as int + d) as char
  }

  /** `str(n)` for a natural number. */
  function NatToString(n: nat): (s: string)
    ensures |s| > 0 && AllDigits(s)
  {
    if n < 10 then [DigitChar(n)] else NatToString(n / 10) + [DigitChar(n % 10)]
  }

  /** `str(n)` for an integer. */
  function IntToString(n: int): string
  {
    if n < 0 then "-" + NatToString(-n) else NatToString(n)
  }

  lemma {:induction false} NatToStringValue(n: nat)
    ensures DigitsValue(NatToString(n)) == n
  {
    if n >= 10 {
      NatToStringValue(n / 10);
      var s := NatToString(n);
      assert s[..|s| - 1] == NatToString(n / 10);
    }
  }

  lemma StripNoSpace(s: string)
    requires s != [] && !IsSpace(s[0]) && !IsSpace(s[|s| - 1])
    ensures Strip(s) == s
  {
  }

  /** `int(str(n)) == n`. */
  lemma ParseIntRoundTrip(n: int)
    ensures ParseInt(IntToString(n)) == Some(n)
  {
    var s := IntToString(n);
    var ds := NatToString(if n < 0 then -n else n);
    assert IsDigit(ds[0]) && IsDigit(ds[|ds| - 1]);
    StripNoSpace(s);
    NatToStringValue(if n < 0 then -n else n);
    if n < 0 {
      assert s[1..] == ds;
    }
  }

  /** A decimal numeral never contains a separator such as `-`, `,`, `/` or a space. */
  lemma DigitsFree(s: string, c: char)
    requires AllDigits(s) && !IsDigit(c)
    ensures c !in s
  {
  }

  /** A line read with its newline, once stripped, is the line itself. */
  lemma StripNewline(s: string)
    requires s != [] && !IsSpace(s[0]) && !IsSpace(s[|s| - 1])
    ensures Strip(s + "\n") == s
  {
    var t := s + "\n";
    assert t[0] == s[0];
    assert StripStart(t) == t;
    assert t[|t| - 1] == '\n' && t[..|t| - 1] == s;
    assert StripEnd(s) == s;
    assert StripEnd(t) == StripEnd(s);
  }

  /** A number written by `str()` holds no space. */
  lemma IntToStringNoSpace(n: int)
    ensures ' ' !in IntToString(n)
  {
    var ds := NatToString(if n < 0 then -n else n);
    DigitsFree(ds, ' ');
  }
}
