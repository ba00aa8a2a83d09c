/** The pieces of the JavaScript runtime that the modelled components lean on:
    `String.prototype.trim`, `split`/`join`, `Number.prototype.toString` on
    integers, `Number.parseInt`, `Array.prototype.filter` with `!==`, and the
    truthiness of strings. Strings are sequences of characters. */
module JsString {

  datatype Option<T> = None | Some(value: T)

  /** A computation that either yields a value or throws with a message. */
  datatype Result<T> = Ok(value: T) | Err(error: string)

  /** ECMAScript WhiteSpace and LineTerminator code points: the set that
      `trim`, `parseInt` and the regular-expression class `\s` share. */
  predicate IsJsSpace(c: char)
  {
    c == ' ' || c == '\t' || c == '\n' || c == '\U{000B}' || c == '\U{000C}' || c == '\r'
    || c == '\U{00A0}' || c == '\U{1680}' || ('\U{2000}' <= c <= '\U{200A}')
    || c == '\U{2028}' || c == '\U{2029}' || c == '\U{202F}' || c == '\U{205F}'
    || c == '\U{3000}' || c == '\U{FEFF}'
  }

  /** A string is truthy in JavaScript iff it is not empty. */
  predicate Truthy(s: string)
  {
    s != []
  }

  /** `s.trimStart()`: the suffix that starts at the first non-space character. */
  function TrimStart(s: string): (r: string)
    ensures |r| <= |s| && r == s[|s| - |r|..]
    ensures r == [] || !IsJsSpace(r[0])
    ensures forall i :: 0 <= i < |s| - |r| ==> IsJsSpace(s[i])
  {
    if s != [] && IsJsSpace(s[0]) then TrimStart(s[1..]) else s
  }

  /** `s.trimEnd()`: the prefix that ends at the last non-space character. */
  function TrimEnd(s: string): (r: string)
    ensures |r| <= |s| && r == s[..|r|]
    ensures r == [] || !IsJsSpace(r[|r| - 1])
    ensures forall i :: |r| <= i < |s| ==> IsJsSpace(s[i])
  {
    if s != [] && IsJsSpace(s[|s| - 1]) then TrimEnd(s[..|s| - 1]) else s
  }

  /** `s.trim()`: a contiguous slice of `s` with no leading or trailing space,
      where everything cut away on either side is space. */
  function Trim(s: string): (r: string)
    ensures r == [] || (!IsJsSpace(r[0]) && !IsJsSpace(r[|r| - 1]))
  {
    var t := TrimStart(s);
    TrimEnd(t)
  }

  /** What `Trim` keeps is one slice of the input, and only space is cut away. */
  lemma TrimSlice(s: string)
    ensures exists a :: TrimmedAt(s, Trim(s), a)
  {
    var t := TrimStart(s);
    var r := TrimEnd(t);
    assert Trim(s) == r;
    PrefixOfSuffix(s, t, r);
  }

  /** A prefix `r` of a suffix `t` of `s` sits in `s` at the offset where `t` starts. */
  lemma PrefixOfSuffix(s: string, t: string, r: string)
    requires |t| <= |s| && t == s[|s| - |t|..] && |r| <= |t| && r == t[..|r|]
    requires forall i :: 0 <= i < |s| - |t| ==> IsJsSpace(s[i])
    requires forall i :: |r| <= i < |t| ==> IsJsSpace(t[i])
    ensures TrimmedAt(s, r, |s| - |t|)
  {
    var a := |s| - |t|;
    assert r == s[a..a + |r|];
    forall i | a + |r| <= i < |s| ensures IsJsSpace(s[i]) {
      assert s[i] == t[i - a];
    }
  }

  /** `r` is the slice of `s` at offset `a`, with only space before and after it. */
  predicate TrimmedAt(s: string, r: string, a: int)
  {
    0 <= a <= |s| - |r| && r == s[a..a + |r|]
    && (forall i :: 0 <= i < a ==> IsJsSpace(s[i]))
    && (forall i :: a + |r| <= i < |s| ==> IsJsSpace(s[i]))
  }

  /** A trimmed string is empty iff the input consists of spaces only. */
  lemma TrimEmptyIffAllSpace(s: string)
    ensures Trim(s) == [] <==> forall i :: 0 <= i < |s| ==> IsJsSpace(s[i])
  {
    if Trim(s) != [] {
      var r := Trim(s);
      TrimSlice(s);
      var a :| TrimmedAt(s, r, a);
      assert s[a] == r[0];
    }
  }

  /** Trimming twice is trimming once. */
  lemma {:induction false} TrimIdempotent(s: string)
    ensures Trim(Trim(s)) == Trim(s)
  {
    var r := Trim(s);
    TrimStartNoop(r);
    TrimEndNoop(TrimStart(r));
  }

  lemma TrimStartNoop(s: string)
    requires s == [] || !IsJsSpace(s[0])
    ensures TrimStart(s) == s
  {
  }

  lemma TrimEndNoop(s: string)
    requires s == [] || !IsJsSpace(s[|s| - 1])
    ensures TrimEnd(s) == s
  {
  }

  // ---------------------------------------------------------------------
  // split / join

  /** `s.split(sep)` for a non-empty separator: the pieces between the
      occurrences of `sep` found left to right without overlap. */
  function Split(s: string, sep: string): (r: seq<string>)
    requires sep != []
    ensures |r| >= 1
  {
    SplitFrom(s, sep, [])
  }

  /** Scans `s`; `cur` is the piece collected since the last separator. */
  function SplitFrom(s: string, sep: string, cur: string): (r: seq<string>)
    requires sep != []
    ensures |r| >= 1
    decreases |s|
  {
    if |s| < |sep| then [cur + s]
    else if s[..|sep|] == sep then [cur] + SplitFrom(s[|sep|..], sep, [])
    else SplitFrom(s[1..], sep, cur + [s[0]])
  }

  lemma JoinTwo(a: string, b: string, sep: string)
    ensures Join([a, b], sep) == a + sep + b
  {
    assert [a, b][1..] == [b];
  }

  lemma JoinThree(a: string, b: string, c: string, sep: string)
    ensures Join([a, b, c], sep) == a + sep + b + sep + c
  {
    assert [a, b, c][1..] == [b, c];
    JoinTwo(b, c, sep);
  }

  /** A string shorter than the separator is split into itself alone. */
  lemma SplitShort(s: string, sep: string)
    requires sep != [] && |s| < |sep|
    ensures Split(s, sep) == [s]
  {
    assert [] + s == s;
  }

  /** `parts.join(sep)`. */
  function Join(parts: seq<string>, sep: string): (r: string)
  {
    if parts == [] then []
    else if |parts| == 1 then parts[0]
    else parts[0] + sep + Join(parts[1..], sep)
  }

  /** Joining the pieces of a split with the same separator gives the input back. */
  lemma {:induction false} JoinSplit(s: string, sep: string)
    requires sep != []
    ensures Join(Split(s, sep), sep) == s
  {
    JoinSplitFrom(s, sep, []);
  }

  lemma {:induction false} JoinSplitFrom(s: string, sep: string, cur: string)
    requires sep != []
    ensures Join(SplitFrom(s, sep, cur), sep) == cur + s
    decreases |s|
  {
    if |s| < |sep| {
    } else if s[..|sep|] == sep {
      var rest := SplitFrom(s[|sep|..], sep, []);
      JoinSplitFrom(s[|sep|..], sep, []);
      assert Join([cur] + rest, sep) == cur + sep + Join(rest, sep) by {
        assert ([cur] + rest)[1..] == rest;
      }
      assert s == sep + s[|sep|..];
    } else {
      JoinSplitFrom(s[1..], sep, cur + [s[0]]);
      assert cur + [s[0]] + s[1..] == cur + s by { assert s == [s[0]] + s[1..]; }
    }
  }

  /** `pat` occurs in `s` starting at index `i`. */
  predicate OccursAt(s: string, pat: string, i: int)
  {
    0 <= i && i + |pat| <= |s| && s[i..i + |pat|] == pat
  }

  /** A string without the separator splits into one piece, itself. */
  lemma {:induction false} SplitWithoutSeparator(s: string, sep: string, cur: string)
    requires sep != []
    requires forall i :: !OccursAt(s, sep, i)
    ensures SplitFrom(s, sep, cur) == [cur + s]
    decreases |s|
  {
    if |s| >= |sep| {
      assert !OccursAt(s, sep, 0);
      forall i ensures !OccursAt(s[1..], sep, i) {
        if OccursAt(s[1..], sep, i) {
          assert s[1..][i..i + |sep|] == s[i + 1..i + 1 + |sep|];
          assert OccursAt(s, sep, i + 1);
        }
      }
      SplitWithoutSeparator(s[1..], sep, cur + [s[0]]);
      assert cur + [s[0]] + s[1..] == cur + s by { assert s == [s[0]] + s[1..]; }
    }
  }

  lemma OccursAtShift(s: string, pat: string, k: nat)
    requires s != []
    ensures OccursAt(s[1..], pat, k) <==> OccursAt(s, pat, k + 1)
  {
    if 0 <= k && k + |pat| <= |s| - 1 {
      assert s[1..][k..k + |pat|] == s[k + 1..k + 1 + |pat|];
    }
  }

  /** Splitting at the first occurrence of the separator: the first piece is
      everything before it and the rest is the split of what follows it. */
  lemma {:induction false} SplitFromFirst(s: string, sep: string, cur: string, i: nat)
    requires sep != []
    requires OccursAt(s, sep, i)
    requires forall k :: 0 <= k < i ==> !OccursAt(s, sep, k)
    ensures SplitFrom(s, sep, cur) == [cur + s[..i]] + SplitFrom(s[i + |sep|..], sep, [])
    decreases i
  {
    if i == 0 {
      assert s[..|sep|] == s[0..|sep|] == sep;
      SplitFromCut(s, sep, cur);
      assert cur + s[..i] == cur;
    } else {
      assert s[..|sep|] != sep by {
        assert !OccursAt(s, sep, 0);
        assert s[0..|sep|] == s[..|sep|];
      }
      SplitFromSkip(s, sep, cur);
      OccursAtShift(s, sep, i - 1);
      forall k | 0 <= k < i - 1 ensures !OccursAt(s[1..], sep, k) {
        OccursAtShift(s, sep, k);
      }
      SplitFromFirst(s[1..], sep, cur + [s[0]], i - 1);
      PieceShift(s, cur, i);
      assert s[1..][i - 1 + |sep|..] == s[i + |sep|..];
    }
  }

  lemma SplitFromCut(s: string, sep: string, cur: string)
    requires sep != [] && |sep| <= |s| && s[..|sep|] == sep
    ensures SplitFrom(s, sep, cur) == [cur] + SplitFrom(s[|sep|..], sep, [])
  {
  }

  lemma SplitFromSkip(s: string, sep: string, cur: string)
    requires sep != [] && |sep| <= |s| && s[..|sep|] != sep
    ensures SplitFrom(s, sep, cur) == SplitFrom(s[1..], sep, cur + [s[0]])
  {
  }

  lemma PieceShift(s: string, cur: string, i: nat)
    requires 1 <= i <= |s|
    ensures cur + [s[0]] + s[1..][..i - 1] == cur + s[..i]
  {
    assert s[..i] == [s[0]] + s[1..][..i - 1];
  }

  /** Splitting the join of pieces that do not contain the one-character
      separator gives the pieces back. */
  lemma {:induction false} SplitJoinChar(parts: seq<string>, c: char)
    requires |parts| >= 1
    requires forall i :: 0 <= i < |parts| ==> c !in parts[i]
    ensures Split(Join(parts, [c]), [c]) == parts
  {
    var s := Join(parts, [c]);
    if |parts| == 1 {
      forall k ensures !OccursAt(s, [c], k) {
        if 0 <= k < |s| {
          assert s[k..k + 1] == [s[k]];
          assert s[k] in parts[0];
        }
      }
      SplitWithoutSeparator(s, [c], []);
      assert [] + s == parts[0];
      assert parts == [parts[0]];
    } else {
      var p := parts[0];
      assert s == p + [c] + Join(parts[1..], [c]);
      assert OccursAt(s, [c], |p|) by {
        assert s[|p|..|p| + 1] == [c];
      }
      forall k | 0 <= k < |p| ensures !OccursAt(s, [c], k) {
        assert s[k..k + 1] == [p[k]];
        assert p[k] in p;
      }
      SplitFromFirst(s, [c], [], |p|);
      assert s[..|p|] == p;
      assert s[|p| + 1..] == Join(parts[1..], [c]);
      var rest := parts[1..];
      assert forall i :: 0 <= i < |rest| ==> c !in rest[i] by {
        forall i | 0 <= i < |rest| ensures c !in rest[i] {
          assert rest[i] == parts[i + 1];
        }
      }
      SplitJoinChar(rest, c);
      assert [] + p == p;
      assert parts == [p] + rest;
    }
  }

  /** With no occurrence at or after index `from`, nothing after it is split. */
  lemma NoOccurrenceFrom(s: string, sep: string, from: nat)
    requires from <= |s|
    requires forall k :: from <= k ==> !OccursAt(s, sep, k)
    ensures forall k :: !OccursAt(s[from..], sep, k)
  {
    forall k ensures !OccursAt(s[from..], sep, k) {
      if OccursAt(s[from..], sep, k) {
        assert s[from..][k..k + |sep|] == s[from + k..from + k + |sep|];
        assert OccursAt(s, sep, from + k);
      }
    }
  }

  // ---------------------------------------------------------------------
  // Numbers

  function DigitChar(d: nat): (c: char)
    requires d < 10
    ensures '0' <= c <= '9'
  {
    ['0', '1', '2', '3', '4', '5', '6', '7', '8', '9'][d]
  }

  predicate IsDecimalDigit(c: char)
  {
    '0' <= c <= '9'
  }

  /** `n.toString()` for a non-negative integer: decimal digits without a
      leading zero (except for zero itself). */
  function NatToString(n: nat): (r: string)
    ensures |r| >= 1
    ensures forall i :: 0 <= i < |r| ==> IsDecimalDigit(r[i])
    ensures r[0] == '0' ==> n == 0
  {
    if n < 10 then [DigitChar(n)] else NatToString(n / 10) + [DigitChar(n % 10)]
  }

  /** `n.toString()` for any integer. */
  function IntToString(n: int): (r: string)
    ensures n < 0 ==> r == "-" + NatToString(-n)
    ensures n >= 0 ==> r == NatToString(n)
  {
    if n < 0 then "-" + NatToString(-n) else NatToString(n)
  }

  /** Value of a digit character in the given radix (10 or 16), or -1. */
  function DigitValue(c: char, radix: nat): (v: int)
    ensures -1 <= v
    ensures IsDecimalDigit(c) ==> v == c as int - '0' as int
  {
    if '0' <= c <= '9' then c as int - '0' as int
    else if radix == 16 && 'a' <= c <= 'f' then c as int - 'a' as int + 10
    else if radix == 16 && 'A' <= c <= 'F' then c as int - 'A' as int + 10
    else -1
  }

  predicate IsDigitIn(c: char, radix: nat)
  {
    0 <= DigitValue(c, radix) < radix
  }

  /** The longest prefix of `s` made of digits of the radix. */
  function DigitPrefix(s: string, radix: nat): (r: string)
    ensures |r| <= |s| && r == s[..|r|]
    ensures forall i :: 0 <= i < |r| ==> IsDigitIn(r[i], radix)
    ensures |r| < |s| ==> !IsDigitIn(s[|r|], radix)
  {
    if s != [] && IsDigitIn(s[0], radix) then [s[0]] + DigitPrefix(s[1..], radix) else []
  }

  /** Positional value of a digit string, most significant digit first. */
  function DigitsValue(ds: string, radix: nat): (v: nat)
    requires forall i :: 0 <= i < |ds| ==> IsDigitIn(ds[i], radix)
  {
    if ds == [] then 0
    else
      var init, last := ds[..|ds| - 1], ds[|ds| - 1];
      assert forall i :: 0 <= i < |init| ==> init[i] == ds[i];
      assert IsDigitIn(last, radix);
      var high := DigitsValue(init, radix);
      MulNat(high, radix);
      high * radix + DigitValue(last, radix)
  }

  /** `Number.parseInt(s)` with no radix argument, on integral results:
      leading space is skipped, one sign is read, a `0x`/`0X` prefix selects
      radix 16, and the longest run of digits is read; no digit gives NaN,
      written `None`. */
  function ParseInt(s: string): (r: Option<int>)
  {
    var t := TrimStart(s);
    if t != [] && (t[0] == '-' || t[0] == '+') then ParseUnsigned(t[1..], t[0] == '-')
    else ParseUnsigned(t, false)
  }

  function ParseUnsigned(u: string, neg: bool): (r: Option<int>)
  {
    if |u| >= 2 && u[0] == '0' && (u[1] == 'x' || u[1] == 'X') then ParseDigits(u[2..], 16, neg)
    else ParseDigits(u, 10, neg)
  }

  function ParseDigits(body: string, radix: nat, neg: bool): (r: Option<int>)
  {
    var ds := DigitPrefix(body, radix);
    if ds == [] then None
    else
      var v: int := DigitsValue(ds, radix);
      Some(if neg then -v else v)
  }

  lemma {:induction false} DigitsValueOfNatToString(n: nat)
    ensures forall i :: 0 <= i < |NatToString(n)| ==> IsDigitIn(NatToString(n)[i], 10)
    ensures DigitsValue(NatToString(n), 10) == n
  {
    var s := NatToString(n);
    if n >= 10 {
      DigitsValueOfNatToString(n / 10);
      assert s[..|s| - 1] == NatToString(n / 10);
    }
  }

  /** A string made only of digits is read whole. */
  lemma ParseAllDigits(s: string, radix: nat, neg: bool)
    requires s != [] && forall i :: 0 <= i < |s| ==> IsDigitIn(s[i], radix)
    ensures ParseDigits(s, radix, neg) == Some(if neg then -(DigitsValue(s, radix) as int) else DigitsValue(s, radix) as int)
  {
    DigitPrefixAll(s, radix);
  }

  /** A decimal digit string never carries the `0x` prefix. */
  lemma DecimalNotHex(s: string, neg: bool)
    requires s != [] && forall i :: 0 <= i < |s| ==> IsDigitIn(s[i], 10)
    ensures ParseUnsigned(s, neg) == ParseDigits(s, 10, neg)
  {
    if |s| >= 2 {
      assert IsDigitIn(s[1], 10);
    }
  }

  /** The numerals the routes use as defaults. */
  lemma DefaultNumerals()
    ensures NatToString(1) == "1" && NatToString(10) == "10"
    ensures NatToString(12) == "12" && NatToString(20) == "20"
    ensures IntToString(1) == "1" && IntToString(10) == "10"
  {
    assert NatToString(1) == [DigitChar(1)];
    assert NatToString(10) == NatToString(1) + [DigitChar(0)];
    assert NatToString(12) == NatToString(1) + [DigitChar(2)];
    assert NatToString(20) == NatToString(2) + [DigitChar(0)];
  }

  /** Reading back what `toString` wrote gives the number: the default
      strings "1", "10", "12", "20" parse to the defaults the routes use. */
  lemma ParseIntOfNatToString(n: nat)
    ensures ParseInt(NatToString(n)) == Some(n)
  {
    var s := NatToString(n);
    DigitsValueOfNatToString(n);
    TrimStartNoop(s);
    ParseAllDigits(s, 10, false);
    DecimalNotHex(s, false);
  }

  lemma DigitPrefixAll(s: string, radix: nat)
    requires forall i :: 0 <= i < |s| ==> IsDigitIn(s[i], radix)
    ensures DigitPrefix(s, radix) == s
  {
    if s != [] {
      DigitPrefixAll(s[1..], radix);
    }
  }

  lemma ParseIntOfIntToString(n: int)
    ensures ParseInt(IntToString(n)) == Some(n)
  {
    if n >= 0 {
      ParseIntOfNatToString(n);
    } else {
      var s := NatToString(-n);
      var t := IntToString(n);
      assert t == "-" + s;
      DigitsValueOfNatToString(-n);
      TrimStartNoop(t);
      assert t[1..] == s;
      ParseAllDigits(s, 10, true);
      DecimalNotHex(s, true);
    }
  }

  lemma MulNat(a: nat, b: nat)
    ensures a * b >= 0
  {
  }

  lemma MulCancel(a: int, b: int, c: int)
    requires a * c < b * c && c > 0
    ensures a < b
  {
    assert (b - a) * c == b * c - a * c;
  }

  /** `Math.ceil(n / d)` for a positive divisor. */
  function CeilDiv(n: int, d: int): (r: int)
    requires d > 0
    ensures (r - 1) * d < n <= r * d
  {
    if n % d == 0 then n / d else n / d + 1
  }

  // ---------------------------------------------------------------------
  // Sequences

  /** `xs.filter((y) => y !== x)`: every occurrence of `x` is dropped and
      the other elements keep their multiplicity and order. */
  function RemoveAll<T(==)>(xs: seq<T>, x: T): (r: seq<T>)
    ensures x !in r
    ensures multiset(r) == multiset(xs)[x := 0]
    ensures x !in xs ==> r == xs
  {
    if xs == [] then []
    else
      assert xs == [xs[0]] + xs[1..];
      (if xs[0] == x then [] else [xs[0]]) + RemoveAll(xs[1..], x)
  }

  /** Filtering distributes over concatenation, so relative order is kept. */
  lemma {:induction false} RemoveAllAppend<T>(a: seq<T>, b: seq<T>, x: T)
    ensures RemoveAll(a + b, x) == RemoveAll(a, x) + RemoveAll(b, x)
  {
    if a == [] {
      assert a + b == b;
    } else {
      var ab := a + b;
      assert ab[0] == a[0];
      assert ab[1..] == a[1..] + b;
      RemoveAllAppend(a[1..], b, x);
      RemoveAllStep(ab, x);
      RemoveAllStep(a, x);
      SeqAssoc(if a[0] == x then [] else [a[0]], RemoveAll(a[1..], x), RemoveAll(b, x));
    }
  }

  lemma RemoveAllStep<T>(xs: seq<T>, x: T)
    requires xs != []
    ensures RemoveAll(xs, x) == (if xs[0] == x then [] else [xs[0]]) + RemoveAll(xs[1..], x)
  {
  }

  lemma SeqAssoc<T>(h: seq<T>, y: seq<T>, z: seq<T>)
    ensures h + (y + z) == (h + y) + z
  {
  }

  predicate NoDuplicates<T(==)>(xs: seq<T>)
  {
    forall i, j :: 0 <= i < j < |xs| ==> xs[i] != xs[j]
  }

  lemma {:induction false} RemoveAllKeepsNoDuplicates<T>(xs: seq<T>, x: T)
    requires NoDuplicates(xs)
    ensures NoDuplicates(RemoveAll(xs, x))
  {
    if xs != [] {
      RemoveAllKeepsNoDuplicates(xs[1..], x);
      var rest := RemoveAll(xs[1..], x);
      assert xs[0] !in xs[1..];
      assert multiset(rest) == multiset(xs[1..])[x := 0];
      assert xs[0] !in multiset(rest);
    }
  }
}
