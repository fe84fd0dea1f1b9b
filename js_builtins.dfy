/**
 * The JavaScript built-ins that the backend and the frontend rely on, each
 * restricted to the inputs the application hands it: truthiness of optional
 * strings, the character classes of regular expressions, `Number#toString`
 * on non-negative integers, `String#includes`, `startsWith`, `endsWith`,
 * `trim`, `split`, `replace` with a one-character pattern, `parseFloat` on
 * unsigned decimals, and Node's `path.extname`.
 */
module JsBuiltins {

  /** `undefined`/`null` versus a present value. */
  datatype Option<+T> = None | Some(value: T)

  /** A JavaScript number as far as the application uses it: a finite value or NaN. */
  datatype Number = Num(value: real) | NaN

  /** A possibly absent string used as a JavaScript condition: absent and "" are falsy. */
  predicate Truthy(s: Option<string>)
  {
    s.Some? && s.value != ""
  }

  function Min(a: int, b: int): int { if a < b then a else b }

  // ---------------------------------------------------------------------------
  // Character classes

  /** `\d`: the ASCII digits only. */
  predicate IsDigit(c: char)
  {
    '0' <= c <= '9'
  }

  predicate AllDigits(s: string)
  {
    forall i :: 0 <= i < |s| ==> IsDigit(s[i])
  }

  function DigitValue(c: char): nat
    requires IsDigit(c)
  {
    c as int - '0' as int
  }

  function DigitChar(d: nat): (c: char)
    requires d < 10
    ensures IsDigit(c) && DigitValue(c) == d
  {
    ('0' as int + d) as char
  }

  /**
   * `\s`, which is also what `String#trim` removes: the WhiteSpace and
   * LineTerminator code points of ECMA-262.
   */
  predicate IsSpace(c: char)
  {
    c == ' ' || c == '\t' || c == '\n' || c == '\r' || c == '\U{000B}' || c == '\U{000C}'
    || c == '\U{00A0}' || c == '\U{1680}' || ('\U{2000}' <= c <= '\U{200A}')
    || c == '\U{2028}' || c == '\U{2029}' || c == '\U{202F}' || c == '\U{205F}'
    || c == '\U{3000}' || c == '\U{FEFF}'
  }

  predicate AllSpaces(s: string)
  {
    forall i :: 0 <= i < |s| ==> IsSpace(s[i])
  }

  /** Length of the run of digits that starts at `p` (greedy `\d*`). */
  function DigitRun(s: string, p: nat): (n: nat)
    requires p <= |s|
    ensures p + n <= |s|
    ensures forall i :: p <= i < p + n ==> IsDigit(s[i])
    ensures p + n == |s| || !IsDigit(s[p + n])
    decreases |s| - p
  {
    if p < |s| && IsDigit(s[p]) then 1 + DigitRun(s, p + 1) else 0
  }

  /** Length of the run of white space that starts at `p` (greedy `\s*`). */
  function SpaceRun(s: string, p: nat): (n: nat)
    requires p <= |s|
    ensures p + n <= |s|
    ensures forall i :: p <= i < p + n ==> IsSpace(s[i])
    ensures p + n == |s| || !IsSpace(s[p + n])
    decreases |s| - p
  {
    if p < |s| && IsSpace(s[p]) then 1 + SpaceRun(s, p + 1) else 0
  }

  /** A run is determined by where it ends: the greedy run is the maximal one. */
  lemma DigitRunExact(s: string, p: nat, k: nat)
    requires p + k <= |s|
    requires forall i :: p <= i < p + k ==> IsDigit(s[i])
    requires p + k == |s| || !IsDigit(s[p + k])
    ensures DigitRun(s, p) == k
  {
  }

  lemma SpaceRunExact(s: string, p: nat, k: nat)
    requires p + k <= |s|
    requires forall i :: p <= i < p + k ==> IsSpace(s[i])
    requires p + k == |s| || !IsSpace(s[p + k])
    ensures SpaceRun(s, p) == k
  {
  }

  // ---------------------------------------------------------------------------
  // Decimal numerals

  /** `n.toString()` (and `${n}`) for a non-negative integer below 10^21. */
  function DecimalString(n: nat): (s: string)
    ensures |s| >= 1 && AllDigits(s)
    ensures s[0] == '0' <==> n == 0
    decreases n
  {
    if n < 10 then [DigitChar(n)] else DecimalString(n / 10) + [DigitChar(n % 10)]
  }

  /** The value of a string of decimal digits, most significant first. */
  function DigitsValue(s: string): nat
    requires AllDigits(s)
  {
    if s == [] then 0 else DigitsValue(s[..|s| - 1]) * 10 + DigitValue(s[|s| - 1])
  }

  /** Reading the numeral back gives the number: `toString` loses nothing. */
  lemma {:induction false} DecimalStringRoundTrip(n: nat)
    ensures DigitsValue(DecimalString(n)) == n
    decreases n
  {
    if n >= 10 {
      DecimalStringRoundTrip(n / 10);
      var s := DecimalString(n);
      assert s[..|s| - 1] == DecimalString(n / 10);
    }
  }

  lemma DecimalStringInjective(m: nat, n: nat)
    ensures DecimalString(m) == DecimalString(n) ==> m == n
  {
    DecimalStringRoundTrip(m);
    DecimalStringRoundTrip(n);
  }

  /** The value of the digits after a decimal point: 0.d1 d2 ... dk. */
  function FractionValue(ds: string): (r: real)
    requires AllDigits(ds)
    ensures 0.0 <= r < 1.0
  {
    if ds == [] then 0.0 else (DigitValue(ds[0]) as real + FractionValue(ds[1..])) / 10.0
  }

  /**
   * `parseFloat` on strings whose numeric prefix is an unsigned decimal
   * `d* [. d*]` with at least one digit, NaN otherwise. Leading
   * white space is skipped and anything after the longest numeric prefix is
   * ignored, as in JavaScript.
   */
  function ParseFloat(s: string): Number
  {
    ParseUnsigned(TrimStart(s))
  }

  /** `parseFloat` after the leading white space: the longest prefix `d* [. d*]` with a digit. */
  function ParseUnsigned(t: string): Number
  {
    var n := DigitRun(t, 0);
    if n < |t| && t[n] == '.' then
      var m := DigitRun(t, n + 1);
      if n == 0 && m == 0 then NaN else Num(DecimalValue(t, n, m))
    else if n == 0 then NaN
    else Num(DigitsValue(DigitsIn(t, 0, n)) as real)
  }

  function DigitsIn(t: string, from: nat, count: nat): (ds: string)
    requires from + count <= |t|
    requires forall i :: from <= i < from + count ==> IsDigit(t[i])
    ensures AllDigits(ds) && ds == t[from..from + count]
  {
    t[from..from + count]
  }

  function DecimalValue(t: string, n: nat, m: nat): real
    requires n + 1 + m <= |t|
    requires forall i :: 0 <= i < n ==> IsDigit(t[i])
    requires forall i :: n + 1 <= i < n + 1 + m ==> IsDigit(t[i])
  {
    DigitsValue(DigitsIn(t, 0, n)) as real + FractionValue(DigitsIn(t, n + 1, m))
  }

  /** `parseFloat` of a string of digits is the integer they spell. */
  lemma ParseFloatInteger(a: string)
    requires |a| >= 1 && AllDigits(a)
    ensures ParseFloat(a) == Num(DigitsValue(a) as real)
  {
    TrimStartNoSpace(a);
    DigitRunExact(a, 0, |a|);
    assert DigitsIn(a, 0, |a|) == a;
  }

  /** `parseFloat` of `a.b` is the integer part plus the fraction. */
  lemma ParseFloatDecimal(a: string, b: string)
    requires AllDigits(a) && AllDigits(b) && |a| + |b| >= 1
    ensures ParseFloat(a + "." + b) == Num(DigitsValue(a) as real + FractionValue(b))
  {
    var t := a + "." + b;
    assert t[0] == if a == [] then '.' else a[0];
    ParseFloatUnpadded(t);
    ParseUnsignedNumeral(a, b);
  }

  /** Without leading white space `parseFloat` reads from the first character. */
  lemma ParseFloatUnpadded(t: string)
    requires t != [] && (t[0] == '.' || IsDigit(t[0]))
    ensures ParseFloat(t) == ParseUnsigned(t)
  {
    TrimStartNoSpace(t);
  }

  lemma ParseUnsignedNumeral(a: string, b: string)
    requires AllDigits(a) && AllDigits(b) && |a| + |b| >= 1
    ensures ParseUnsigned(a + "." + b) == Num(DigitsValue(a) as real + FractionValue(b))
  {
    var t := a + "." + b;
    DecimalNumeralShape(a, b);
    ParseUnsignedDecimal(t, |a|, |b|);
    DecimalValueParts(a, b);
  }

  /** `a.b` has its point at `|a|` and digits everywhere else. */
  lemma DecimalNumeralShape(a: string, b: string)
    requires AllDigits(a) && AllDigits(b) && |a| + |b| >= 1
    ensures var t := a + "." + b;
            && |t| >= 2 && t[|a|] == '.' && (t[0] == '.' || IsDigit(t[0]))
            && forall i :: 0 <= i < |t| && i != |a| ==> IsDigit(t[i])
  {
    var t := a + "." + b;
    assert forall i :: 0 <= i < |a| ==> t[i] == a[i];
    assert forall i :: |a| < i < |t| ==> t[i] == b[i - |a| - 1];
  }

  /** The two digit runs of `a.b` are `a` and `b`. */
  lemma DecimalValueParts(a: string, b: string)
    requires AllDigits(a) && AllDigits(b)
    ensures var t := a + "." + b;
            && (forall i :: 0 <= i < |a| ==> IsDigit(t[i]))
            && (forall i :: |a| + 1 <= i < |a| + 1 + |b| ==> IsDigit(t[i]))
            && DecimalValue(t, |a|, |b|) == DigitsValue(a) as real + FractionValue(b)
  {
    var t := a + "." + b;
    assert forall i :: 0 <= i < |a| ==> t[i] == a[i];
    assert forall i :: |a| < i < |t| ==> t[i] == b[i - |a| - 1];
    assert DigitsIn(t, 0, |a|) == a;
    assert DigitsIn(t, |a| + 1, |b|) == b;
  }

  /** `parseFloat` after the white space of digits around one `.`: the decimal they spell. */
  lemma ParseUnsignedDecimal(t: string, n: nat, m: nat)
    requires |t| == n + 1 + m && n + m >= 1 && t[n] == '.'
    requires forall i :: 0 <= i < |t| && i != n ==> IsDigit(t[i])
    ensures ParseUnsigned(t) == Num(DecimalValue(t, n, m))
  {
    DigitRunExact(t, 0, n);
    DigitRunExact(t, n + 1, m);
  }

  // ---------------------------------------------------------------------------
  // String predicates

  predicate StartsWith(s: string, prefix: string)
  {
    |prefix| <= |s| && s[..|prefix|] == prefix
  }

  predicate EndsWith(s: string, suffix: string)
  {
    |suffix| <= |s| && s[|s| - |suffix|..] == suffix
  }

  predicate OccursAt(s: string, sub: string, i: int)
  {
    0 <= i && i + |sub| <= |s| && s[i..i + |sub|] == sub
  }

  /** `s.includes(sub)`: a case-sensitive substring test. */
  predicate Includes(s: string, sub: string)
    decreases |s|
  {
    StartsWith(s, sub) || (s != [] && Includes(s[1..], sub))
  }

  /** An occurrence anywhere makes `includes` true. */
  lemma {:induction false} OccursThenIncludes(s: string, sub: string, i: nat)
    requires OccursAt(s, sub, i)
    ensures Includes(s, sub)
    decreases i
  {
    if i > 0 {
      assert s[1..][i - 1..i - 1 + |sub|] == s[i..i + |sub|];
      OccursThenIncludes(s[1..], sub, i - 1);
    }
  }

  /** `includes` is true only because of an occurrence, found at `i`. */
  lemma {:induction false} IncludesWitness(s: string, sub: string) returns (i: nat)
    requires Includes(s, sub)
    ensures OccursAt(s, sub, i)
    decreases |s|
  {
    if StartsWith(s, sub) {
      i := 0;
    } else {
      var j := IncludesWitness(s[1..], sub);
      assert s[1..][j..j + |sub|] == s[j + 1..j + 1 + |sub|];
      i := j + 1;
    }
  }

  /** `includes` holds exactly when `sub` occurs at some position of `s`. */
  lemma IncludesIff(s: string, sub: string)
    ensures Includes(s, sub) <==> exists i :: OccursAt(s, sub, i)
  {
    if Includes(s, sub) {
      var i := IncludesWitness(s, sub);
    }
    if i :| OccursAt(s, sub, i) {
      OccursThenIncludes(s, sub, i);
    }
  }

  /** Every character of a string that `s` includes is a character of `s`. */
  lemma IncludesOnlyOwnChars(s: string, sub: string, k: nat)
    requires Includes(s, sub) && k < |sub|
    ensures sub[k] in s
  {
    var i := IncludesWitness(s, sub);
    assert s[i..i + |sub|][k] == s[i + k];
  }

  /** An occurrence in `x + y` lies in `y` or ends within the first |sub|-1 characters of `y`. */
  lemma IncludesSplit(x: string, y: string, sub: string)
    requires Includes(x + y, sub) && |sub| >= 1
    ensures Includes(x + y[..Min(|y|, |sub| - 1)], sub) || Includes(y, sub)
  {
    var xy := x + y;
    var i := IncludesWitness(xy, sub);
    if i >= |x| {
      OccursInSuffix(x, y, sub, i);
    } else {
      var z := x + y[..Min(|y|, |sub| - 1)];
      OccursInPrefix(xy, z, sub, i);
    }
  }

  lemma OccursInSuffix(x: string, y: string, sub: string, i: nat)
    requires OccursAt(x + y, sub, i) && i >= |x|
    ensures Includes(y, sub)
  {
    var j := i - |x|;
    assert (x + y)[i..i + |sub|] == y[j..j + |sub|];
    OccursThenIncludes(y, sub, j);
  }

  lemma OccursInPrefix(xy: string, z: string, sub: string, i: nat)
    requires OccursAt(xy, sub, i)
    requires i + |sub| <= |z| <= |xy| && z == xy[..|z|]
    ensures Includes(z, sub)
  {
    assert xy[i..i + |sub|] == z[i..i + |sub|];
    OccursThenIncludes(z, sub, i);
  }

  // ---------------------------------------------------------------------------
  // trim, split, replace

  function TrimStart(s: string): (r: string)
    ensures |r| <= |s| && r == s[|s| - |r|..]
    ensures AllSpaces(s[..|s| - |r|])
    ensures r == [] || !IsSpace(r[0])
  {
    if s != [] && IsSpace(s[0]) then
      var r := TrimStart(s[1..]);
      assert s[..|s| - |r|] == [s[0]] + s[1..][..|s[1..]| - |r|];
      r
    else s
  }

  function TrimEnd(s: string): (r: string)
    ensures |r| <= |s| && r == s[..|r|]
    ensures AllSpaces(s[|r|..])
    ensures r == [] || !IsSpace(r[|r| - 1])
  {
    if s != [] && IsSpace(s[|s| - 1]) then
      var r := TrimEnd(s[..|s| - 1]);
      assert s[|r|..] == s[..|s| - 1][|r|..] + [s[|s| - 1]];
      r
    else s
  }

  lemma TrimEndNoSpace(t: string)
    requires t == [] || !IsSpace(t[|t| - 1])
    ensures TrimEnd(t) == t
  {
  }

  lemma TrimStartNoSpace(t: string)
    requires t == [] || !IsSpace(t[0])
    ensures TrimStart(t) == t
  {
  }

  /** White space in front of a string that does not start with white space is exactly what `trimStart` removes. */
  lemma {:induction false} TrimStartSpaces(w: string, t: string)
    requires AllSpaces(w) && (t == [] || !IsSpace(t[0]))
    ensures TrimStart(w + t) == t
    decreases |w|
  {
    if w == [] {
      assert w + t == t;
    } else {
      assert (w + t)[0] == w[0] && (w + t)[1..] == w[1..] + t;
      TrimStartSpaces(w[1..], t);
    }
  }

  /** `s.trim()`. */
  function Trim(s: string): string
  {
    TrimEnd(TrimStart(s))
  }

  /** `s.split(sep)` for a one-character separator: never empty, "" gives [""]. */
  function Split(s: string, sep: char): (parts: seq<string>)
    ensures |parts| >= 1
  {
    if s == [] then [[]]
    else
      var rest := Split(s[1..], sep);
      if s[0] == sep then [[]] + rest else [[s[0]] + rest[0]] + rest[1..]
  }

  /** `parts.join(sep)`. */
  function Join(parts: seq<string>, sep: char): string
    requires |parts| >= 1
  {
    if |parts| == 1 then parts[0] else parts[0] + [sep] + Join(parts[1..], sep)
  }

  /** Gluing a character onto the first part glues it onto the joined string. */
  lemma JoinCons(c: char, parts: seq<string>, sep: char)
    requires |parts| >= 1
    ensures Join([[c] + parts[0]] + parts[1..], sep) == [c] + Join(parts, sep)
  {
    var glued := [[c] + parts[0]] + parts[1..];
    if |parts| > 1 {
      assert glued[1..] == parts[1..];
    }
  }

  /** `split` loses nothing: joining the parts back with the separator gives `s`. */
  lemma {:induction false} SplitJoin(s: string, sep: char)
    ensures Join(Split(s, sep), sep) == s
  {
    if s != [] {
      SplitJoin(s[1..], sep);
      var rest := Split(s[1..], sep);
      if s[0] == sep {
        assert ([[]] + rest)[1..] == rest;
      } else {
        JoinCons(s[0], rest, sep);
      }
      assert s == [s[0]] + s[1..];
    }
  }

  /** `split` cuts at every separator: no part contains one. */
  lemma {:induction false} SplitPartsAvoidSeparator(s: string, sep: char)
    ensures forall k :: 0 <= k < |Split(s, sep)| ==> sep !in Split(s, sep)[k]
  {
    if s != [] {
      SplitPartsAvoidSeparator(s[1..], sep);
      var rest := Split(s[1..], sep);
      if s[0] != sep {
        assert sep !in [s[0]] + rest[0];
        assert forall k :: 1 <= k < |Split(s, sep)| ==> Split(s, sep)[k] == rest[k];
      } else {
        assert forall k :: 1 <= k < |Split(s, sep)| ==> Split(s, sep)[k] == rest[k - 1];
      }
    }
  }


  /** A separator-free prefix is glued to the first part. */
  lemma {:induction false} SplitPrefix(a: string, b: string, sep: char)
    requires sep !in a
    ensures Split(a + b, sep) == [a + Split(b, sep)[0]] + Split(b, sep)[1..]
  {
    if a != [] {
      SplitPrefix(a[1..], b, sep);
      var parts := Split(b, sep);
      assert (a + b)[1..] == a[1..] + b;
      assert [a[0]] + (a[1..] + parts[0]) == a + parts[0];
    } else {
      var parts := Split(b, sep);
      assert a + b == b && a + parts[0] == parts[0];
      assert parts == [parts[0]] + parts[1..];
    }
  }

  /** A separator after a separator-free prefix closes the first part. */
  lemma SplitAtSeparator(a: string, b: string, sep: char)
    requires sep !in a
    ensures Split(a + [sep] + b, sep) == [a] + Split(b, sep)
  {
    SplitPrefix(a, [sep] + b, sep);
    assert a + [sep] + b == a + ([sep] + b);
    assert ([sep] + b)[1..] == b;
    assert Split([sep] + b, sep) == [[]] + Split(b, sep);
    assert a + [] == a;
  }

  /** `s.replace(c, '')` with a one-character string pattern: removes the first `c` only. */
  function RemoveFirst(s: string, c: char): string
  {
    if s == [] then []
    else if s[0] == c then s[1..]
    else [s[0]] + RemoveFirst(s[1..], c)
  }

  lemma {:induction false} RemoveFirstAfter(a: string, b: string, c: char)
    requires c !in a
    ensures RemoveFirst(a + [c] + b, c) == a + b
  {
    if a != [] {
      RemoveFirstAfter(a[1..], b, c);
      HeadAndTail(a, c, b);
    } else {
      assert a + [c] + b == [c] + b;
    }
  }

  /** Splitting off the first character of a non-empty prefix, before and after `c` is removed. */
  lemma HeadAndTail(a: string, c: char, b: string)
    requires a != []
    ensures (a + [c] + b)[0] == a[0] && (a + [c] + b)[1..] == a[1..] + [c] + b
    ensures a + b == [a[0]] + (a[1..] + b)
  {
    assert a == [a[0]] + a[1..];
  }

  // ---------------------------------------------------------------------------
  // path.extname (POSIX)

  /** `s.lastIndexOf(c)`: the last position holding `c`, or -1. */
  function LastIndexOf(s: string, c: char): (r: int)
    ensures -1 <= r < |s|
    ensures r >= 0 ==> s[r] == c
    ensures forall k :: r < k < |s| ==> s[k] != c
    decreases |s|
  {
    if s == [] then -1
    else if s[|s| - 1] == c then |s| - 1
    else LastIndexOf(s[..|s| - 1], c)
  }

  /** `s` without its trailing run of `c`. */
  function DropTrailing(s: string, c: char): (r: string)
    ensures |r| <= |s| && r == s[..|r|]
    ensures forall k :: |r| <= k < |s| ==> s[k] == c
    ensures r == [] || r[|r| - 1] != c
    decreases |s|
  {
    if s != [] && s[|s| - 1] == c then DropTrailing(s[..|s| - 1], c) else s
  }

  /** The last path segment, ignoring trailing slashes (the part `extname` looks at). */
  function BaseName(path: string): (base: string)
    ensures '/' !in base
  {
    var trimmed := DropTrailing(path, '/');
    trimmed[LastIndexOf(trimmed, '/') + 1..]
  }

  /**
   * `path.extname(path)`: from the last `.` of the last segment to its end;
   * empty when the segment has no `.`, when its only `.` is its first
   * character (a dot-file), or when the segment is `..`.
   */
  function ExtName(path: string): (ext: string)
    ensures ext == [] || (ext[0] == '.' && '.' !in ext[1..] && '/' !in ext)
    ensures ext == [] || EndsWith(BaseName(path), ext)
  {
    var base := BaseName(path);
    var dot := LastIndexOf(base, '.');
    if dot <= 0 || base == ".." then [] else base[dot..]
  }

  /** A name with an extension: `extname` gives back the dot and the extension. */
  lemma ExtNameOf(name: string, ext: string)
    requires name != [] && '/' !in name && '/' !in ext && '.' !in ext
    requires name != "." || ext != []
    ensures ExtName(name + "." + ext) == "." + ext
  {
    var path := name + "." + ext;
    NameDotExtShape(name, ext);
    LastIndexOfAt(path, '.', |name|);
    NotParentSegment(name, ext);
    ExtNameOfSegment(path, |name|);
    DropName(name, ext);
  }

  lemma DropName(name: string, ext: string)
    ensures (name + "." + ext)[|name|..] == "." + ext
  {
  }

  /** In a single segment with its last `.` past the start, the extension runs from that `.`. */
  lemma ExtNameOfSegment(base: string, dot: nat)
    requires '/' !in base && 0 < dot < |base| && LastIndexOf(base, '.') == dot && base != ".."
    ensures ExtName(base) == base[dot..]
  {
    BaseNameOfSegment(base);
  }

  /** `name.ext` is `..` only for the name `.` with an empty extension. */
  lemma NotParentSegment(name: string, ext: string)
    requires name != [] && (name != "." || ext != [])
    ensures name + "." + ext != ".."
  {
    var path := name + "." + ext;
    assert |path| == 2 ==> |name| == 1 && ext == [] && path[0] == name[0];
    assert |path| == 2 && path[0] == '.' ==> name == ".";
  }

  /** `name.ext` is one segment whose last `.` is the one before `ext`. */
  lemma NameDotExtShape(name: string, ext: string)
    requires '/' !in name && '/' !in ext && '.' !in ext
    ensures var path := name + "." + ext;
            && '/' !in path && path[|name|] == '.'
            && forall k :: |name| < k < |path| ==> path[k] != '.'
  {
    var path := name + "." + ext;
    assert forall k :: 0 <= k < |name| ==> path[k] == name[k];
    assert forall k :: |name| < k < |path| ==> path[k] == ext[k - |name| - 1];
  }

  /** A path without slashes is its own last segment. */
  lemma BaseNameOfSegment(path: string)
    requires '/' !in path
    ensures BaseName(path) == path
  {
    assert DropTrailing(path, '/') == path;
    assert LastIndexOf(path, '/') == -1;
    assert path[0..] == path;
  }

  /** The last occurrence is the one with no occurrence after it. */
  lemma LastIndexOfAt(s: string, c: char, p: nat)
    requires p < |s| && s[p] == c
    requires forall k :: p < k < |s| ==> s[k] != c
    ensures LastIndexOf(s, c) == p
  {
  }

  /** Without a `.` there is no extension. */
  lemma ExtNameWithoutDot(path: string)
    requires '.' !in path
    ensures ExtName(path) == []
  {
    var trimmed := DropTrailing(path, '/');
    var base := BaseName(path);
    assert forall k :: 0 <= k < |base| ==> base[k] == path[LastIndexOf(trimmed, '/') + 1 + k];
    assert LastIndexOf(base, '.') == -1;
  }
}
