/** Splitting, joining and trimming strings as the Swift and Python code does it. */
module Strings {

  /** The pieces of `s` between occurrences of `sep`, empty pieces kept
      (Python's `str.split(sep)`, Swift's `components(separatedBy:)`). */
  function Split(s: string, sep: char): (r: seq<string>)
    ensures |r| >= 1
    ensures forall i :: 0 <= i < |r| ==> sep !in r[i]
    decreases |s|
  {
    if s == [] then [""]
    else
      var rest := Split(s[1..], sep);
      if s[0] == sep then [""] + rest
      else [[s[0]] + rest[0]] + rest[1..]
  }

  /** The pieces of `parts` separated by `sep`. */
  function Join(parts: seq<string>, sep: string): string
    decreases |parts|
  {
    if |parts| == 0 then ""
    else if |parts| == 1 then parts[0]
    else parts[0] + sep + Join(parts[1..], sep)
  }

  /** The non-empty pieces of `parts`, in order. */
  function NonEmpty(parts: seq<string>): (r: seq<string>)
    ensures forall i :: 0 <= i < |r| ==> r[i] in parts && r[i] != ""
    ensures |r| <= |parts|
    decreases |parts|
  {
    if parts == [] then []
    else if parts[0] == "" then NonEmpty(parts[1..])
    else [parts[0]] + NonEmpty(parts[1..])
  }

  /** Swift's `split(separator:)`: the maximal non-empty runs of `s` that hold no `sep`. */
  function SplitNonEmpty(s: string, sep: char): (r: seq<string>)
    ensures forall i :: 0 <= i < |r| ==> r[i] != "" && sep !in r[i]
  {
    NonEmpty(Split(s, sep))
  }

  /** The index of the first `c` in `s`, or `|s|` when there is none. */
  function IndexOf(s: string, c: char): (r: nat)
    ensures r <= |s|
    ensures r < |s| ==> s[r] == c
    ensures c !in s[..r]
    decreases |s|
  {
    if s == [] then 0
    else if s[0] == c then 0
    else
      assert s[..1 + IndexOf(s[1..], c)] == [s[0]] + s[1..][..IndexOf(s[1..], c)];
      1 + IndexOf(s[1..], c)
  }

  lemma {:induction false} IndexOfAfter(a: string, c: char, b: string)
    requires c !in a
    ensures IndexOf(a + [c] + b, c) == |a|
    decreases |a|
  {
    if a != [] {
      assert (a + [c] + b)[1..] == a[1..] + [c] + b;
      IndexOfAfter(a[1..], c, b);
    }
  }

  /** `s` with every `from` replaced by `to` (Swift's `replacingOccurrences(of:with:)` on one character). */
  function ReplaceChar(s: string, from: char, to: char): (r: string)
  {
    seq(|s|, i requires 0 <= i < |s| => if s[i] == from then to else s[i])
  }

  /** Python's `s.rstrip(chars)`: drops the longest suffix made only of characters in `chars`. */
  function RStrip(s: string, chars: set<char>): (r: string)
    ensures r <= s
    ensures r == [] || r[|r| - 1] !in chars
    ensures forall i :: |r| <= i < |s| ==> s[i] in chars
    decreases |s|
  {
    if |s| > 0 && s[|s| - 1] in chars then RStrip(s[..|s| - 1], chars) else s
  }

  /** The decimal digit for `d`. */
  function Digit(d: nat): char
    requires d < 10
  {
    ('0' as int + d) as char
  }

  /** Swift's string interpolation of a natural number: its decimal digits, no leading zeros. */
  function NatToDecimal(n: nat): (r: string)
    ensures |r| >= 1
    ensures forall i :: 0 <= i < |r| ==> '0' <= r[i] <= '9'
    decreases n
  {
    if n < 10 then [Digit(n)] else NatToDecimal(n / 10) + [Digit(n % 10)]
  }

  /** Swift's string interpolation of an `Int`: a minus sign before a negative number. */
  function IntToDecimal(n: int): string
  {
    if n < 0 then "-" + NatToDecimal(-n) else NatToDecimal(n)
  }

  /** The number a string of decimal digits denotes. */
  function DecimalValue(s: string): int
    decreases |s|
  {
    if s == [] then 0 else DecimalValue(s[..|s| - 1]) * 10 + (s[|s| - 1] as int - '0' as int)
  }

  /** Reading an integer back from its rendering. */
  function ParseInt(s: string): int
  {
    if |s| > 0 && s[0] == '-' then -DecimalValue(s[1..]) else DecimalValue(s)
  }

  // ---------------------------------------------------------------------------
  // Lemmas

  lemma {:induction false} SplitNoSeparator(s: string, sep: char)
    requires sep !in s
    ensures Split(s, sep) == [s]
    decreases |s|
  {
    if s != [] {
      SplitNoSeparator(s[1..], sep);
      assert s[0] != sep && [s[0]] + s[1..] == s;
    }
  }

  /** A separator after a separator-free prefix ends the first piece there. */
  lemma {:induction false} SplitAfterPiece(a: string, sep: char, b: string)
    requires sep !in a
    ensures Split(a + [sep] + b, sep) == [a] + Split(b, sep)
    decreases |a|
  {
    var s := a + [sep] + b;
    if a == [] {
      assert s[0] == sep && s[1..] == b;
    } else {
      assert s[0] == a[0] && s[1..] == a[1..] + [sep] + b;
      SplitAfterPiece(a[1..], sep, b);
      assert [a[0]] + a[1..] == a;
    }
  }

  /** Joining the pieces of a split restores the string. */
  lemma {:induction false} JoinSplit(s: string, sep: char)
    ensures Join(Split(s, sep), [sep]) == s
    decreases |s|
  {
    if s != [] {
      JoinSplit(s[1..], sep);
      var rest := Split(s[1..], sep);
      if s[0] != sep && |rest| > 1 {
        assert Join(rest, [sep]) == rest[0] + [sep] + Join(rest[1..], [sep]);
        var r := Split(s, sep);
        assert r[1..] == rest[1..];
        assert Join(r, [sep]) == r[0] + [sep] + Join(rest[1..], [sep]);
      }
    }
  }

  /** Splitting a join of separator-free pieces gives the pieces back. */
  lemma {:induction false} SplitJoin(parts: seq<string>, sep: char)
    requires |parts| >= 1
    requires forall i :: 0 <= i < |parts| ==> sep !in parts[i]
    ensures Split(Join(parts, [sep]), sep) == parts
    decreases |parts|
  {
    if |parts| == 1 {
      SplitNoSeparator(parts[0], sep);
    } else {
      SplitJoin(parts[1..], sep);
      SplitAfterPiece(parts[0], sep, Join(parts[1..], [sep]));
    }
  }

  lemma {:induction false} NonEmptyAppend(a: seq<string>, b: seq<string>)
    ensures NonEmpty(a + b) == NonEmpty(a) + NonEmpty(b)
    decreases |a|
  {
    if a == [] {
      assert a + b == b;
    } else {
      assert (a + b)[0] == a[0] && (a + b)[1..] == a[1..] + b;
      NonEmptyAppend(a[1..], b);
    }
  }

  /** The characters of `s` other than `c`, in order. */
  function Without(s: string, c: char): (r: string)
    ensures c !in r
    decreases |s|
  {
    if s == [] then "" else (if s[0] == c then "" else [s[0]]) + Without(s[1..], c)
  }

  /** The pieces of `parts` run together. */
  function Concat(parts: seq<string>): string
    decreases |parts|
  {
    if parts == [] then "" else parts[0] + Concat(parts[1..])
  }

  lemma {:induction false} ConcatNonEmpty(parts: seq<string>)
    ensures Concat(NonEmpty(parts)) == Concat(parts)
    decreases |parts|
  {
    if parts != [] {
      ConcatNonEmpty(parts[1..]);
      if parts[0] != "" {
        assert ([parts[0]] + NonEmpty(parts[1..]))[1..] == NonEmpty(parts[1..]);
      }
    }
  }

  lemma {:induction false} ConcatSplit(s: string, sep: char)
    ensures Concat(Split(s, sep)) == Without(s, sep)
    decreases |s|
  {
    if s != [] {
      ConcatSplit(s[1..], sep);
      var rest := Split(s[1..], sep);
      var r := Split(s, sep);
      if s[0] == sep {
        assert r[1..] == rest;
      } else {
        assert r[0] == [s[0]] + rest[0] && r[1..] == rest[1..];
        assert Concat(rest) == rest[0] + Concat(rest[1..]);
      }
    }
  }

  /** `split(separator:)` loses no other character and keeps their order: its pieces run
      together are `s` with the separators taken out. */
  lemma SplitNonEmptyKeepsText(s: string, sep: char)
    ensures Concat(SplitNonEmpty(s, sep)) == Without(s, sep)
  {
    ConcatSplit(s, sep);
    ConcatNonEmpty(Split(s, sep));
  }

  /** `split(separator:)` of separator-free pieces joined by the separator gives back exactly the
      non-empty pieces, in order: adjacent, leading and trailing separators yield nothing. */
  lemma SplitNonEmptyJoin(parts: seq<string>, sep: char)
    requires |parts| >= 1
    requires forall i :: 0 <= i < |parts| ==> sep !in parts[i]
    ensures SplitNonEmpty(Join(parts, [sep]), sep) == NonEmpty(parts)
  {
    SplitJoin(parts, sep);
  }

  /** Two separators in a row split like one: `"a..b"` gives `["a", "b"]`. */
  lemma SplitNonEmptyDoubleSeparator(h: string, p: string, sep: char)
    requires h != "" && p != "" && sep !in h && sep !in p
    ensures SplitNonEmpty(h + [sep, sep] + p, sep) == [h, p]
  {
    var parts := [h, "", p];
    assert [h, "", p][1..] == ["", p];
    assert ["", p][1..] == [p];
    assert Join([p], [sep]) == p;
    assert Join(["", p], [sep]) == "" + [sep] + p;
    assert Join(parts, [sep]) == h + [sep] + Join(["", p], [sep]);
    assert h + [sep] + ("" + [sep] + p) == h + [sep, sep] + p;
    SplitNonEmptyJoin(parts, sep);
    assert NonEmpty(["", p]) == NonEmpty([p]);
    assert NonEmpty([p]) == [p] + NonEmpty([]);
    assert NonEmpty(parts) == [h] + NonEmpty(["", p]);
  }

  /** The first two non-empty pieces of `h.p...`, for non-empty separator-free `h` and `p`. */
  lemma SplitNonEmptyTwoPieces(h: string, p: string, sep: char, rest: string)
    requires h != "" && p != "" && sep !in h && sep !in p
    ensures var r := SplitNonEmpty(h + [sep] + p + [sep] + rest, sep);
      |r| >= 2 && r[0] == h && r[1] == p
  {
    var s := h + [sep] + p + [sep] + rest;
    assert s == h + [sep] + (p + [sep] + rest);
    SplitAfterPiece(h, sep, p + [sep] + rest);
    SplitAfterPiece(p, sep, rest);
    var pieces := [h] + ([p] + Split(rest, sep));
    assert Split(s, sep) == pieces;
    NonEmptyAppend([h], [p] + Split(rest, sep));
    NonEmptyAppend([p], Split(rest, sep));
  }

  /** RStrip removes exactly a trailing run of stripped characters after a kept last character. */
  lemma RStripSuffix(t: string, u: string, chars: set<char>)
    requires t != [] && t[|t| - 1] !in chars
    requires forall i :: 0 <= i < |u| ==> u[i] in chars
    ensures RStrip(t + u, chars) == t
  {
    var s := t + u;
    var r := RStrip(s, chars);
    assert s[|t| - 1] !in chars;
    assert |r| <= |t|;
    assert r == s[..|r|];
  }

  lemma {:induction false} DecimalValueOfNat(n: nat)
    ensures DecimalValue(NatToDecimal(n)) == n
    decreases n
  {
    if n >= 10 {
      DecimalValueOfNat(n / 10);
      var s := NatToDecimal(n);
      assert s[..|s| - 1] == NatToDecimal(n / 10);
    }
  }

  /** The decimal rendering of an integer determines it. */
  lemma ParseIntOfDecimal(n: int)
    ensures ParseInt(IntToDecimal(n)) == n
  {
    if n < 0 {
      DecimalValueOfNat(-n);
      assert IntToDecimal(n)[1..] == NatToDecimal(-n);
    } else {
      DecimalValueOfNat(n);
    }
  }
}
