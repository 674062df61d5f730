/** Shared vocabulary of the front end: optional values, the JavaScript string
    operations the pages rely on (toLowerCase, trim, parseInt, parseFloat,
    number-to-string) and list filtering. */
module Common {

  datatype Option<+T> = None | Some(value: T) {
    function GetOr(default: T): T {
      match this
      case Some(v) => v
      case None => default
    }
  }

  /** A JavaScript number field of a request body after `parseInt`: a
      number, or NaN when nothing parses, or null when the field was empty. */
  datatype IntField = IntVal(n: int) | NotANumber | Null

  // ---------------------------------------------------------------------
  // Characters and case

  predicate IsDigit(c: char) { '0' <= c <= '9' }

  predicate IsUpper(c: char) { 'A' <= c <= 'Z' }

  function LowerChar(c: char): (r: char)
    ensures !IsUpper(r)
    ensures !IsUpper(c) ==> r == c
  {
    if IsUpper(c) then (c as int + 32) as char else c
  }

  /** `String.prototype.toLowerCase`, for the ASCII letters. */
  function Lower(s: string): (r: string)
    ensures |r| == |s|
    ensures forall i :: 0 <= i < |s| ==> r[i] == LowerChar(s[i])
  {
    if s == [] then [] else [LowerChar(s[0])] + Lower(s[1..])
  }

  lemma {:induction false} LowerIdempotent(s: string)
    ensures Lower(Lower(s)) == Lower(s)
  {
    var l := Lower(s);
    assert forall i :: 0 <= i < |l| ==> Lower(l)[i] == l[i];
  }

  /** A string with no upper-case ASCII letter is its own lower case. */
  lemma LowerOfLower(s: string)
    requires forall i :: 0 <= i < |s| ==> !IsUpper(s[i])
    ensures Lower(s) == s
  {
  }

  /** A capitalised word lowercases in its first letter only. */
  lemma LowerCapitalised(c: char, rest: string)
    requires IsUpper(c)
    requires forall i :: 0 <= i < |rest| ==> !IsUpper(rest[i])
    ensures Lower([c] + rest) == [(c as int + 32) as char] + rest
  {
    assert ([c] + rest)[1..] == rest;
    LowerOfLower(rest);
  }

  function LowerOpt(s: Option<string>): Option<string> {
    match s
    case None => None
    case Some(v) => Some(Lower(v))
  }

  // ---------------------------------------------------------------------
  // Whitespace and trim

  /** The characters `String.prototype.trim` strips: white space and line
      terminators of ECMAScript. */
  predicate IsJsSpace(c: char) {
    c == ' ' || c == '\t' || c == '\n' || c == '\r' || c == '\U{000B}' || c == '\U{000C}'
    || c == '\U{00A0}' || c == '\U{1680}' || ('\U{2000}' <= c <= '\U{200A}')
    || c == '\U{2028}' || c == '\U{2029}' || c == '\U{202F}' || c == '\U{205F}'
    || c == '\U{3000}' || c == '\U{FEFF}'
  }

  function TrimStart(s: string): (r: string)
    ensures |r| <= |s| && r == s[|s| - |r|..]
    ensures r == [] || !IsJsSpace(r[0])
    ensures forall i :: 0 <= i < |s| - |r| ==> IsJsSpace(s[i])
  {
    if s != [] && IsJsSpace(s[0]) then TrimStart(s[1..]) else s
  }

  function TrimEnd(s: string): (r: string)
    ensures |r| <= |s| && r == s[..|r|]
    ensures r == [] || !IsJsSpace(r[|r| - 1])
    ensures forall i :: |r| <= i < |s| ==> IsJsSpace(s[i])
  {
    if s != [] && IsJsSpace(s[|s| - 1]) then TrimEnd(s[..|s| - 1]) else s
  }

  function Trim(s: string): string {
    TrimEnd(TrimStart(s))
  }

  /** True when `s.trim()` is the empty string, i.e. JavaScript treats the
      trimmed text as falsy. */
  predicate IsBlank(s: string) {
    Trim(s) == ""
  }

  lemma EmptyIsBlank()
    ensures IsBlank("")
  {
    assert TrimStart("") == "";
  }

  lemma BlankIffAllSpace(s: string)
    ensures IsBlank(s) <==> forall i :: 0 <= i < |s| ==> IsJsSpace(s[i])
  {
    var t := TrimStart(s);
    if IsBlank(s) {
      assert TrimEnd(t) == [];
      assert t == [];
    } else {
      assert Trim(s) != [];
      assert t != [] && !IsJsSpace(t[0]);
      assert s[|s| - |t|] == t[0];
    }
  }

  lemma TrimNonBlank(s: string)
    requires !IsBlank(s)
    ensures Trim(s) != [] && !IsJsSpace(Trim(s)[0]) && !IsJsSpace(Trim(s)[|Trim(s)| - 1])
  {
    var t := TrimStart(s);
    var u := TrimEnd(t);
    assert u == t[..|u|];
    assert u[0] == t[0];
  }

  /** Trimming twice is trimming once. */
  lemma TrimIdempotent(s: string)
    ensures Trim(Trim(s)) == Trim(s)
  {
    var u := Trim(s);
    if u != [] {
      TrimNonBlank(s);
      assert TrimStart(u) == u;
    }
  }

  /** The text before the first occurrence of `sep` (all of `s` when absent),
      i.e. `s.split(sep)[0]`. */
  function BeforeFirst(s: string, sep: char): (r: string)
    ensures |r| <= |s| && r == s[..|r|]
    ensures sep !in r
    ensures |r| < |s| ==> s[|r|] == sep
  {
    if s == [] then [] else if s[0] == sep then [] else [s[0]] + BeforeFirst(s[1..], sep)
  }

  /** The text before the first separator of `a + sep + b` is `a` when
      `a` holds no separator. */
  lemma {:induction false} BeforeFirstOfJoin(a: string, sep: char, b: string)
    requires sep !in a
    ensures BeforeFirst(a + [sep] + b, sep) == a
  {
    if a != [] {
      assert (a + [sep] + b)[1..] == a[1..] + [sep] + b;
      BeforeFirstOfJoin(a[1..], sep, b);
    }
  }

  // ---------------------------------------------------------------------
  // Decimal text

  function DigitValue(c: char): nat
    requires IsDigit(c)
  {
    c as int - '0' as int
  }

  function DigitChar(d: nat): (c: char)
    requires d < 10
    ensures IsDigit(c) && DigitValue(c) == d
  {
    ('0' as int + d) as char
  }

  predicate AllDigits(s: string) {
    forall i :: 0 <= i < |s| ==> IsDigit(s[i])
  }

  /** The number written by a string of decimal digits. */
  function DigitsValue(s: string): nat
    requires AllDigits(s)
  {
    if s == [] then 0 else DigitsValue(s[..|s| - 1]) * 10 + DigitValue(s[|s| - 1])
  }

  /** The longest prefix of `s` made of decimal digits. */
  function LeadingDigits(s: string): (r: string)
    ensures AllDigits(r) && |r| <= |s| && r == s[..|r|]
    ensures |r| < |s| ==> !IsDigit(s[|r|])
  {
    if s != [] && IsDigit(s[0]) then [s[0]] + LeadingDigits(s[1..]) else []
  }

  /** `s.length` in JavaScript: the number of UTF-16 code units, two for a
      character outside the Basic Multilingual Plane and one for any other. */
  function Utf16Length(s: string): (n: nat)
    ensures |s| <= n <= 2 * |s|
    ensures (forall i :: 0 <= i < |s| ==> s[i] as int < 0x1_0000) ==> n == |s|
  {
    if s == [] then 0
    else (if s[0] as int < 0x1_0000 then 1 else 2) + Utf16Length(s[1..])
  }

  /** Decimal text of a natural number, as JavaScript prints it. */
  function NatToString(n: nat): (r: string)
    ensures r != [] && AllDigits(r)
    ensures DigitsValue(r) == n
    ensures |r| > 1 ==> r[0] != '0'
  {
    if n < 10 then [DigitChar(n)]
    else
      var p := NatToString(n / 10);
      var r := p + [DigitChar(n % 10)];
      assert r[..|r| - 1] == p;
      r
  }

  /** Decimal text of an integer (a leading '-' for negatives). */
  function IntToString(n: int): string {
    if n < 0 then "-" + NatToString(-n) else NatToString(n)
  }

  lemma LeadingDigitsOfDigits(s: string, rest: string)
    requires AllDigits(s)
    requires rest == [] || !IsDigit(rest[0])
    ensures LeadingDigits(s + rest) == s
  {
    if s != [] {
      assert (s + rest)[1..] == s[1..] + rest;
      LeadingDigitsOfDigits(s[1..], rest);
    }
  }

  /** JavaScript `parseInt(s)` with radix 10: leading white space is skipped,
      an optional sign is read, then the longest run of digits; NaN (None)
      when there is no digit. */
  function ParseInt(s: string): (r: Option<int>)
    ensures r.None? <==> (var t := TrimStart(s);
                          var u := if t != [] && (t[0] == '-' || t[0] == '+') then t[1..] else t;
                          LeadingDigits(u) == [])
  {
    var t := TrimStart(s);
    var neg := t != [] && t[0] == '-';
    var u := if t != [] && (t[0] == '-' || t[0] == '+') then t[1..] else t;
    var ds := LeadingDigits(u);
    if ds == [] then None
    else
      var v: int := DigitsValue(ds);
      Some(if neg then -v else v)
  }

  /** Printing a number and parsing it back gives the number. */
  lemma ParseIntOfNatToString(n: nat)
    ensures ParseInt(NatToString(n)) == Some(n)
  {
    var s := NatToString(n);
    assert !IsJsSpace(s[0]);
    assert TrimStart(s) == s;
    LeadingDigitsOfDigits(s, []);
    assert s + [] == s;
  }

  lemma ParseIntOfIntToString(n: int)
    ensures ParseInt(IntToString(n)) == Some(n)
  {
    if n < 0 {
      var s := NatToString(-n);
      var t := "-" + s;
      assert TrimStart(t) == t;
      assert t[1..] == s;
      LeadingDigitsOfDigits(s, []);
      assert s + [] == s;
    } else {
      ParseIntOfNatToString(n);
    }
  }

  /** `x ? parseInt(x) : null` for a text field: empty text is sent as null,
      anything else as its parsed integer or NaN. */
  function IntOrNull(s: string): (r: IntField)
    ensures s == "" <==> r == Null
    ensures forall n: nat :: s == NatToString(n) ==> r == IntVal(n)
  {
    ParseIntOfNatToStringAll();
    if s == "" then Null
    else match ParseInt(s)
      case Some(n) => IntVal(n)
      case None => NotANumber
  }

  lemma ParseIntOfNatToStringAll()
    ensures forall n: nat :: ParseInt(NatToString(n)) == Some(n)
  {
    forall n: nat ensures ParseInt(NatToString(n)) == Some(n) {
      ParseIntOfNatToString(n);
    }
  }

  /** `parseInt(x)` sent without an emptiness check. */
  function ParseIntField(s: string): (r: IntField)
    ensures r != Null
  {
    match ParseInt(s)
    case Some(n) => IntVal(n)
    case None => NotANumber
  }

  /** The magnitude read from unsigned decimal text: digits, optionally a
      point and more digits; None when there is no digit at all. */
  function ParseUnsignedDecimal(u: string): Option<real> {
    var whole := LeadingDigits(u);
    var rest := u[|whole|..];
    var frac := if rest != [] && rest[0] == '.' then LeadingDigits(rest[1..]) else [];
    if whole == [] && frac == [] then None
    else Some(DigitsValue(whole) as real + FractionValue(frac))
  }

  /** The value of the digits after a decimal point: "25" is 0.25. */
  function FractionValue(ds: string): (r: real)
    requires AllDigits(ds)
    ensures 0.0 <= r <= 1.0
  {
    if ds == [] then 0.0 else (DigitValue(ds[0]) as real + FractionValue(ds[1..])) / 10.0
  }

  /** JavaScript `parseFloat(s)` for plain decimal text: leading white space,
      an optional sign, digits with an optional fractional part. None stands
      for NaN (no digit before or after the point). */
  function ParseFloat(s: string): Option<real> {
    var t := TrimStart(s);
    var neg := t != [] && t[0] == '-';
    var u := if t != [] && (t[0] == '-' || t[0] == '+') then t[1..] else t;
    match ParseUnsignedDecimal(u)
    case None => None
    case Some(m) => Some(if neg then -m else m)
  }

  lemma ParseUnsignedDecimalOfDigits(s: string)
    requires s != [] && AllDigits(s)
    ensures ParseUnsignedDecimal(s) == Some(DigitsValue(s) as real)
  {
    LeadingDigitsOfDigits(s, []);
    assert s + [] == s;
    assert s[|s|..] == [];
  }

  lemma ParseFloatOfNatToString(n: nat)
    ensures ParseFloat(NatToString(n)) == Some(n as real)
  {
    var s := NatToString(n);
    assert IsDigit(s[0]);
    assert !IsJsSpace(s[0]) && s[0] != '-' && s[0] != '+';
    assert TrimStart(s) == s;
    ParseUnsignedDecimalOfDigits(s);
  }

  /** `Math.round(x)`: the nearest integer, halves rounded up. */
  function Round(x: real): (r: int)
    ensures x - 0.5 < r as real <= x + 0.5
  {
    (x + 0.5).Floor
  }

  /** Dividing by a positive number keeps bounds that hold after scaling. */
  lemma DivBetween(s: real, n: real, lo: real, hi: real)
    requires n > 0.0 && n * lo <= s <= n * hi
    ensures lo <= s / n <= hi
  {
    assert s / n - lo == (s - n * lo) / n;
    assert hi - s / n == (n * hi - s) / n;
  }

  // ---------------------------------------------------------------------
  // Filtering (Array.prototype.filter)

  function Filter<T>(s: seq<T>, p: T -> bool): (r: seq<T>)
    ensures |r| <= |s|
    ensures forall x :: x in r ==> x in s && p(x)
  {
    if s == [] then [] else (if p(s[0]) then [s[0]] else []) + Filter(s[1..], p)
  }

  lemma {:induction false} FilterConcat<T>(a: seq<T>, b: seq<T>, p: T -> bool)
    ensures Filter(a + b, p) == Filter(a, p) + Filter(b, p)
  {
    if a == [] {
      assert a + b == b;
    } else {
      assert (a + b)[0] == a[0];
      assert (a + b)[1..] == a[1..] + b;
      FilterConcat(a[1..], b, p);
    }
  }

  lemma {:induction false} FilterMembers<T>(s: seq<T>, p: T -> bool, x: T)
    ensures x in Filter(s, p) <==> x in s && p(x)
  {
    if s != [] {
      FilterMembers(s[1..], p, x);
      assert s == [s[0]] + s[1..];
    }
  }

  lemma FilterMembersAll<T>(s: seq<T>, p: T -> bool)
    ensures forall x :: x in Filter(s, p) <==> x in s && p(x)
  {
    forall x ensures x in Filter(s, p) <==> x in s && p(x) {
      FilterMembers(s, p, x);
    }
  }

  lemma {:induction false} FilterAll<T>(s: seq<T>, p: T -> bool)
    requires forall x :: x in s ==> p(x)
    ensures Filter(s, p) == s
  {
    if s != [] {
      assert forall x :: x in s[1..] ==> x in s;
      FilterAll(s[1..], p);
      assert s == [s[0]] + s[1..];
    }
  }

  lemma {:induction false} FilterNone<T>(s: seq<T>, p: T -> bool)
    requires forall x :: x in s ==> !p(x)
    ensures Filter(s, p) == []
  {
    if s != [] {
      assert forall x :: x in s[1..] ==> x in s;
      FilterNone(s[1..], p);
    }
  }

  /** Elements that no one of two predicates accepts are never in both
      filtered lists. */
  lemma FilterDisjoint<T>(s: seq<T>, p: T -> bool, q: T -> bool)
    requires forall x :: !(p(x) && q(x))
    ensures forall x :: x in Filter(s, p) ==> x !in Filter(s, q)
  {
  }

  /** Filtering one list by two mutually exclusive predicates never yields
      more elements than the list has. */
  lemma {:induction false} FilterExclusiveLength<T>(s: seq<T>, p: T -> bool, q: T -> bool, r: T -> bool)
    requires forall x :: (p(x) ==> !q(x) && !r(x)) && (q(x) ==> !r(x))
    ensures |Filter(s, p)| + |Filter(s, q)| + |Filter(s, r)| <= |s|
  {
    if s != [] {
      FilterExclusiveLength(s[1..], p, q, r);
    }
  }

  // ---------------------------------------------------------------------
  // Mapping with a partial function (`map` followed by a `filter` that
  // drops the values it cannot use)

  function Collect<T, U>(s: seq<T>, f: T -> Option<U>): (r: seq<U>)
    ensures |r| <= |s|
  {
    if s == [] then []
    else (match f(s[0]) case Some(v) => [v] case None => []) + Collect(s[1..], f)
  }

  /** Every collected value comes from some element. */
  lemma {:induction false} CollectFrom<T, U>(s: seq<T>, f: T -> Option<U>)
    ensures forall y :: y in Collect(s, f) ==> exists x :: x in s && f(x) == Some(y)
  {
    if s != [] {
      CollectFrom(s[1..], f);
      assert forall x :: x in s[1..] ==> x in s;
    }
  }

  /** Every value an element maps to is collected. */
  lemma {:induction false} CollectTo<T, U>(s: seq<T>, f: T -> Option<U>, x: T)
    requires x in s && f(x).Some?
    ensures f(x).value in Collect(s, f)
  {
    if s[0] != x {
      CollectTo(s[1..], f, x);
    }
  }

  lemma {:induction false} CollectConcat<T, U>(a: seq<T>, b: seq<T>, f: T -> Option<U>)
    ensures Collect(a + b, f) == Collect(a, f) + Collect(b, f)
  {
    if a == [] {
      assert a + b == b;
    } else {
      assert (a + b)[0] == a[0];
      assert (a + b)[1..] == a[1..] + b;
      CollectConcat(a[1..], b, f);
    }
  }

  /** Two lists whose elements agree pointwise under the two functions
      collect the same values. */
  lemma {:induction false} CollectPointwise<T, U>(a: seq<T>, b: seq<T>, f: T -> Option<U>, g: T -> Option<U>)
    requires |a| == |b|
    requires forall i :: 0 <= i < |a| ==> f(a[i]) == g(b[i])
    ensures Collect(a, f) == Collect(b, g)
  {
    if a != [] {
      CollectPointwise(a[1..], b[1..], f, g);
    }
  }

  lemma {:induction false} CollectNone<T, U>(s: seq<T>, f: T -> Option<U>)
    requires forall i :: 0 <= i < |s| ==> f(s[i]).None?
    ensures Collect(s, f) == []
  {
    if s != [] {
      CollectNone(s[1..], f);
    }
  }
}
