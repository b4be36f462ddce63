/**
 * The JavaScript string primitives the subtitle parser is built from:
 * `String.prototype.split` with a non-empty separator, `Array.prototype.join`,
 * `String.prototype.replace` with a string pattern, and the `Number` conversion
 * of a string. Numbers are exact reals; NaN is kept as its own value.
 */
module Text {

  /** `sep` occurs in `s` at position `p`. */
  predicate OccursAt(s: string, sep: string, p: int) {
    0 <= p && p + |sep| <= |s| && s[p..p + |sep|] == sep
  }

  /** `sep` occurs somewhere in `s`. */
  predicate Contains(s: string, sep: string) {
    exists p :: 0 <= p <= |s| && OccursAt(s, sep, p)
  }

  /** `parts.join(sep)`: the parts with `sep` between neighbours. */
  function Join(parts: seq<string>, sep: string): string
    decreases |parts|
  {
    if |parts| == 0 then ""
    else if |parts| == 1 then parts[0]
    else parts[0] + sep + Join(parts[1..], sep)
  }

  /**
   * The scan behind `s.split(sep)`: `cur` is the piece read so far. At each
   * position the separator is tried first; a match closes the current piece and
   * the scan resumes after the match, so matches are leftmost and never overlap.
   */
  function SplitFrom(s: string, sep: string, cur: string): (parts: seq<string>)
    requires |sep| > 0
    ensures |parts| >= 1
    decreases |s|
  {
    if |sep| <= |s| && s[..|sep|] == sep then [cur] + SplitFrom(s[|sep|..], sep, "")
    else if |s| == 0 then [cur]
    else SplitFrom(s[1..], sep, cur + [s[0]])
  }

  /** `s.split(sep)`. */
  function Split(s: string, sep: string): (parts: seq<string>)
    requires |sep| > 0
    ensures |parts| >= 1
  {
    SplitFrom(s, sep, "")
  }

  /** Joining the pieces of `s.split(sep)` with `sep` gives `s` back. */
  lemma JoinSplit(s: string, sep: string)
    requires |sep| > 0
    ensures Join(Split(s, sep), sep) == s
  {
    JoinSplitFrom(s, sep, "");
    assert "" + s == s;
  }

  /** No piece of `s.split(sep)` contains the separator. */
  lemma SplitPiecesLackSeparator(s: string, sep: string)
    requires |sep| > 0
    ensures forall i :: 0 <= i < |Split(s, sep)| ==> !Contains(Split(s, sep)[i], sep)
  {
    PiecesLackSeparator(s, sep, "");
  }

  lemma {:induction false} JoinSplitFrom(s: string, sep: string, cur: string)
    requires |sep| > 0
    ensures Join(SplitFrom(s, sep, cur), sep) == cur + s
    decreases |s|
  {
    if |sep| <= |s| && s[..|sep|] == sep {
      var rest := SplitFrom(s[|sep|..], sep, "");
      JoinSplitFrom(s[|sep|..], sep, "");
      assert ([cur] + rest)[1..] == rest;
      assert s == sep + s[|sep|..];
      assert Join([cur] + rest, sep) == cur + sep + s[|sep|..];
    } else if |s| > 0 {
      JoinSplitFrom(s[1..], sep, cur + [s[0]]);
      assert cur + [s[0]] + s[1..] == cur + s;
    }
  }

  /** No match of `sep` in `cur + s` starts inside `cur`. */
  ghost predicate NoMatchStartsIn(cur: string, s: string, sep: string) {
    forall p :: 0 <= p < |cur| ==> !OccursAt(cur + s, sep, p)
  }

  lemma PieceLacksSeparator(cur: string, s: string, sep: string)
    requires |sep| > 0 && NoMatchStartsIn(cur, s, sep)
    ensures !Contains(cur, sep)
  {
    forall p | OccursAt(cur, sep, p) ensures OccursAt(cur + s, sep, p) {
      assert (cur + s)[p..p + |sep|] == cur[p..p + |sep|];
    }
  }

  lemma {:induction false} PiecesLackSeparator(s: string, sep: string, cur: string)
    requires |sep| > 0 && NoMatchStartsIn(cur, s, sep)
    ensures forall i :: 0 <= i < |SplitFrom(s, sep, cur)| ==> !Contains(SplitFrom(s, sep, cur)[i], sep)
    decreases |s|
  {
    if |sep| <= |s| && s[..|sep|] == sep {
      PieceLacksSeparator(cur, s, sep);
      PiecesLackSeparator(s[|sep|..], sep, "");
    } else if |s| == 0 {
      PieceLacksSeparator(cur, s, sep);
    } else {
      var cur' := cur + [s[0]];
      assert cur' + s[1..] == cur + s;
      if |cur| + |sep| <= |cur + s| {
        assert (cur + s)[|cur|..|cur| + |sep|] == s[..|sep|];
      }
      assert !OccursAt(cur + s, sep, |cur|);
      PiecesLackSeparator(s[1..], sep, cur');
    }
  }

  /** A string without the separator splits into itself alone. */
  lemma {:induction false} SplitWithoutSeparator(s: string, sep: string, cur: string)
    requires |sep| > 0 && !Contains(s, sep)
    ensures SplitFrom(s, sep, cur) == [cur + s]
    decreases |s|
  {
    if |s| == 0 {
      assert cur + s == cur;
    } else {
      assert !OccursAt(s, sep, 0);
      forall p ensures !OccursAt(s[1..], sep, p) {
        if 0 <= p && p + |sep| <= |s| - 1 {
          assert s[1..][p..p + |sep|] == s[p + 1..p + 1 + |sep|];
          assert !OccursAt(s, sep, p + 1);
        }
      }
      SplitWithoutSeparator(s[1..], sep, cur + [s[0]]);
      assert cur + [s[0]] + s[1..] == cur + s;
    }
  }

  /** Characters that cannot begin a match are copied into the current piece. */
  lemma {:induction false} SplitSkipsPrefix(a: string, t: string, sep: string, cur: string)
    requires |sep| > 0 && sep[0] !in a
    ensures SplitFrom(a + t, sep, cur) == SplitFrom(t, sep, cur + a)
    decreases |a|
  {
    if |a| == 0 {
      assert a + t == t && cur + a == cur;
    } else {
      var s := a + t;
      assert s[0] == a[0] != sep[0];
      assert |sep| <= |s| ==> s[..|sep|][0] != sep[0];
      assert s[1..] == a[1..] + t;
      SplitSkipsPrefix(a[1..], t, sep, cur + [a[0]]);
      assert cur + [a[0]] + a[1..] == cur + a;
    }
  }

  lemma {:induction false} SplitFromJoin(parts: seq<string>, sep: string)
    requires |sep| > 0 && |parts| >= 1
    requires forall i :: 0 <= i < |parts| ==> sep[0] !in parts[i]
    ensures SplitFrom(Join(parts, sep), sep, "") == parts
    decreases |parts|
  {
    if |parts| == 1 {
      SplitSkipsPrefix(parts[0], "", sep, "");
      assert parts[0] + "" == parts[0] && "" + parts[0] == parts[0];
    } else {
      var rest := Join(parts[1..], sep);
      assert Join(parts, sep) == parts[0] + (sep + rest);
      SplitSkipsPrefix(parts[0], sep + rest, sep, "");
      assert (sep + rest)[..|sep|] == sep && (sep + rest)[|sep|..] == rest;
      assert "" + parts[0] == parts[0];
      SplitFromJoin(parts[1..], sep);
      assert parts == [parts[0]] + parts[1..];
    }
  }

  /**
   * Splitting a joined list gives the list back, provided no part contains the
   * separator's first character.
   */
  lemma SplitJoin(parts: seq<string>, sep: string)
    requires |sep| > 0 && |parts| >= 1
    requires forall i :: 0 <= i < |parts| ==> sep[0] !in parts[i]
    ensures Split(Join(parts, sep), sep) == parts
  {
    SplitFromJoin(parts, sep);
  }

  /**
   * A piece followed by the separator is split off whole, provided no match
   * starts inside the piece even when the separator follows it.
   */
  lemma {:induction false} SplitPiece(p: string, t: string, sep: string, cur: string)
    requires |sep| > 0 && NoMatchStartsIn(p, sep, sep)
    ensures SplitFrom(p + sep + t, sep, cur) == [cur + p] + SplitFrom(t, sep, "")
    decreases |p|
  {
    var s := p + sep + t;
    if |p| == 0 {
      assert s == sep + t && s[..|sep|] == sep && s[|sep|..] == t;
      assert cur + p == cur;
    } else {
      assert !OccursAt(p + sep, sep, 0);
      assert s[..|sep|] == (p + sep)[..|sep|];
      assert s[1..] == p[1..] + sep + t;
      forall k | 0 <= k < |p| - 1
        ensures !OccursAt(p[1..] + sep, sep, k)
      {
        assert !OccursAt(p + sep, sep, k + 1);
        assert (p[1..] + sep)[k..k + |sep|] == (p + sep)[k + 1..k + 1 + |sep|];
      }
      SplitPiece(p[1..], t, sep, cur + [p[0]]);
      assert cur + [p[0]] + p[1..] == cur + p;
    }
  }

  /**
   * Splitting a joined list gives the list back, provided no match of the
   * separator starts inside a part (for every part but the last, even with the
   * separator after it) and the last part lacks the separator.
   */
  lemma {:induction false} SplitJoinPieces(parts: seq<string>, sep: string)
    requires |sep| > 0 && |parts| >= 1
    requires forall i :: 0 <= i < |parts| - 1 ==> NoMatchStartsIn(parts[i], sep, sep)
    requires !Contains(parts[|parts| - 1], sep)
    ensures Split(Join(parts, sep), sep) == parts
    decreases |parts|
  {
    if |parts| == 1 {
      SplitWithoutSeparator(parts[0], sep, "");
      assert "" + parts[0] == parts[0];
    } else {
      var rest := parts[1..];
      assert Join(parts, sep) == parts[0] + sep + Join(rest, sep);
      SplitPiece(parts[0], Join(rest, sep), sep, "");
      assert forall i :: 0 <= i < |rest| - 1 ==> rest[i] == parts[i + 1];
      SplitJoinPieces(rest, sep);
      assert "" + parts[0] == parts[0];
      assert parts == [parts[0]] + rest;
    }
  }

  /** A string that lacks the separator is a single piece. */
  lemma SplitSingle(s: string, sep: string)
    requires |sep| > 0 && !Contains(s, sep)
    ensures Split(s, sep) == [s]
  {
    SplitWithoutSeparator(s, sep, "");
    assert "" + s == s;
  }

  /** `s.split(sep)` has a second piece exactly when `sep` occurs in `s`. */
  lemma SplitCount(s: string, sep: string)
    requires |sep| > 0
    ensures |Split(s, sep)| >= 2 <==> Contains(s, sep)
  {
    var parts := Split(s, sep);
    JoinSplit(s, sep);
    SplitPiecesLackSeparator(s, sep);
    assert |parts| == 1 ==> Join(parts, sep) == parts[0];
    if !Contains(s, sep) {
      SplitSingle(s, sep);
    }
  }

  /**
   * `s.replace(from, to)` with a one-character string pattern: only the first
   * occurrence of `from` is replaced.
   */
  function ReplaceFirst(s: string, from: char, to: char): (r: string)
    ensures |r| == |s|
  {
    if |s| == 0 then ""
    else if s[0] == from then [to] + s[1..]
    else [s[0]] + ReplaceFirst(s[1..], from, to)
  }

  /** The character at `i` changes exactly when it is the first occurrence of `from`. */
  lemma {:induction false} ReplaceFirstAt(s: string, from: char, to: char, i: int)
    requires 0 <= i < |s|
    ensures ReplaceFirst(s, from, to)[i] == if s[i] == from && from !in s[..i] then to else s[i]
    decreases |s|
  {
    if s[0] != from && i > 0 {
      ReplaceFirstAt(s[1..], from, to, i - 1);
      assert s[..i] == [s[0]] + s[1..][..i - 1];
    }
  }

  /** Text before the first `from` is copied unchanged. */
  lemma {:induction false} ReplaceFirstAfter(a: string, b: string, from: char, to: char)
    requires from !in a
    ensures ReplaceFirst(a + b, from, to) == a + ReplaceFirst(b, from, to)
    decreases |a|
  {
    if |a| == 0 {
      assert a + b == b;
    } else {
      assert (a + b)[0] == a[0] && (a + b)[1..] == a[1..] + b;
      ReplaceFirstAfter(a[1..], b, from, to);
      assert [a[0]] + (a[1..] + ReplaceFirst(b, from, to)) == a + ReplaceFirst(b, from, to);
    }
  }

  /** `0`..`9`. */
  predicate IsDigit(c: char) {
    '0' <= c <= '9'
  }

  predicate AllDigits(s: string) {
    forall i :: 0 <= i < |s| ==> IsDigit(s[i])
  }

  /** The value of a string of decimal digits. */
  function DigitsValue(s: string): (n: nat)
    requires AllDigits(s)
  {
    if |s| == 0 then 0
    else DigitsValue(s[..|s| - 1]) * 10 + (s[|s| - 1] as int - '0' as int)
  }

  /**
   * The value of the digits after a decimal point, `0.d1d2…`, read from the
   * last digit inwards; it lies in [0, 1).
   */
  function FractionValue(s: string): (f: real)
    requires AllDigits(s)
    ensures 0.0 <= f < 1.0
  {
    if |s| == 0 then 0.0
    else ((s[0] as int - '0' as int) as real + FractionValue(s[1..])) / 10.0
  }

  /** Three fraction digits are thousandths: `.mmm` is `mmm / 1000`. */
  lemma ThousandthsFraction(ms: string)
    requires |ms| == 3 && AllDigits(ms)
    ensures FractionValue(ms) == DigitsValue(ms) as real / 1000.0
  {
    var d0, d1, d2 := (ms[0] as int - '0' as int) as real, (ms[1] as int - '0' as int) as real,
                      (ms[2] as int - '0' as int) as real;
    assert ms[1..][1..] == [ms[2]] && [ms[2]][1..] == [];
    assert FractionValue(ms[1..][1..]) == d2 / 10.0;
    assert FractionValue(ms[1..]) == (d1 + d2 / 10.0) / 10.0;
    assert ms[..2][..1] == [ms[0]] && [ms[0]][..0] == [];
    assert DigitsValue(ms[..2][..1]) as real == d0;
    assert DigitsValue(ms[..2]) as real == d0 * 10.0 + d1;
  }

  /** The characters JavaScript's `Number` trims: white space and line terminators. */
  predicate IsJsSpace(c: char) {
    if c < '\U{00A0}' then c == ' ' || ('\t' <= c <= '\r')
    else
      || c == '\U{00A0}' || c == '\U{1680}' || ('\U{2000}' <= c <= '\U{200A}')
      || c == '\U{2028}' || c == '\U{2029}' || c == '\U{202F}' || c == '\U{205F}'
      || c == '\U{3000}' || c == '\U{FEFF}'
  }

  /** `s` without its leading white space. */
  function TrimStart(s: string): (r: string)
    ensures |r| <= |s|
  {
    if |s| > 0 && IsJsSpace(s[0]) then TrimStart(s[1..]) else s
  }

  /** `s` without its trailing white space. */
  function TrimEnd(s: string): (r: string)
    ensures |r| <= |s|
  {
    if |s| > 0 && IsJsSpace(s[|s| - 1]) then TrimEnd(s[..|s| - 1]) else s
  }

  /** A JavaScript number: finite (exact, no rounding) or NaN. */
  datatype Num = Finite(value: real) | NaN {
    function Plus(other: Num): Num {
      if Finite? && other.Finite? then Finite(value + other.value) else NaN
    }
    function Times(k: real): Num {
      if Finite? then Finite(value * k) else NaN
    }
    function Negated(): Num {
      if Finite? then Finite(-value) else NaN
    }
  }

  /** Digits with an optional fraction: `12`, `12.`, `12.5`, `.5`. */
  function UnsignedDecimal(s: string): Num {
    DecimalOfParts(s, Split(s, "."))
  }

  /** The value of `s` given its pieces around `.`: one or two digit runs. */
  function DecimalOfParts(s: string, parts: seq<string>): Num {
    if |parts| == 1 && |s| > 0 && AllDigits(s) then Finite(DigitsValue(s) as real)
    else if |parts| == 2 && |parts[0]| + |parts[1]| > 0 && AllDigits(parts[0]) && AllDigits(parts[1])
    then Finite(DigitsValue(parts[0]) as real + FractionValue(parts[1]))
    else NaN
  }

  /**
   * `Number(s)` for a string: surrounding white space is ignored, the empty
   * string is 0, and a sign may precede the decimal.
   */
  function NumberOf(s: string): Num {
    var t := TrimEnd(TrimStart(s));
    if |t| == 0 then Finite(0.0)
    else if t[0] == '-' then UnsignedDecimal(t[1..]).Negated()
    else if t[0] == '+' then UnsignedDecimal(t[1..])
    else UnsignedDecimal(t)
  }

  lemma DigitsLackChar(s: string, c: char)
    requires AllDigits(s) && !IsDigit(c)
    ensures c !in s && !Contains(s, [c])
  {
    forall p | 0 <= p < |s| ensures !OccursAt(s, [c], p) {
      assert s[p..p + 1] == [s[p]];
    }
  }

  /** Trimming leaves alone a string that neither starts nor ends with white space. */
  lemma TrimUnspaced(s: string)
    requires |s| > 0 && !IsJsSpace(s[0]) && !IsJsSpace(s[|s| - 1])
    ensures TrimEnd(TrimStart(s)) == s
  {
  }

  /** A string of digits is read as its decimal value. */
  lemma NumberOfDigits(d: string)
    requires |d| > 0 && AllDigits(d)
    ensures NumberOf(d) == Finite(DigitsValue(d) as real)
  {
    TrimUnspaced(d);
    DigitsLackChar(d, '.');
    SplitSingle(d, ".");
  }

  /** `i.f` with digit strings `i` and `f`, not both empty, is `i + f / 10^|f|`. */
  lemma NumberOfDecimal(i: string, f: string)
    requires |i| + |f| > 0 && AllDigits(i) && AllDigits(f)
    ensures NumberOf(i + "." + f) == Finite(DigitsValue(i) as real + FractionValue(f))
  {
    var s := i + "." + f;
    assert s[0] == (if |i| == 0 then '.' else i[0]);
    assert s[|s| - 1] == (if |f| == 0 then '.' else f[|f| - 1]);
    TrimUnspaced(s);
    assert s[0] != '-' && s[0] != '+';
    UnsignedDecimalOf(i, f);
  }

  lemma UnsignedDecimalOf(i: string, f: string)
    requires |i| + |f| > 0 && AllDigits(i) && AllDigits(f)
    ensures UnsignedDecimal(i + "." + f) == Finite(DigitsValue(i) as real + FractionValue(f))
  {
    SplitDecimal(i, f);
    DecimalOfTwoParts(i + "." + f, i, f);
  }

  lemma DecimalOfTwoParts(s: string, i: string, f: string)
    requires |i| + |f| > 0 && AllDigits(i) && AllDigits(f)
    ensures DecimalOfParts(s, [i, f]) == Finite(DigitsValue(i) as real + FractionValue(f))
  {
  }

  lemma SplitDecimal(i: string, f: string)
    requires AllDigits(i) && AllDigits(f)
    ensures Split(i + "." + f, ".") == [i, f]
  {
    DigitsLackChar(i, '.');
    DigitsLackChar(f, '.');
    assert Join([i, f], ".") == i + "." + f;
    SplitJoin([i, f], ".");
  }
}
