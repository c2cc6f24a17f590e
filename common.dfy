/** Value types shared by the whole model, and the Python `str` operations
    the core relies on (`isspace`, `strip`, `lower`, `split`, `join`,
    `startswith`, `in`, repetition, `int()` and `str()` of an integer). */
module Common {

  datatype Option<+T> = None | Some(value: T)

  datatype Result<+T, +E> = Ok(value: T) | Err(error: E)

  /** A field of a decoded JSON object: missing, present as `null`, or present
      with a value. */
  datatype Field<+T> = Absent | Null | Given(value: T)

  /** `d.get(k)`: a missing field and a `null` one both read as `None`. */
  function Get<T>(f: Field<T>): (r: Option<T>)
    ensures r.Some? <==> f.Given?
  {
    if f.Given? then Some(f.value) else None
  }

  /** `d.get(k, default)`: the default replaces only a missing field; a `null`
      one still reads as `None`. */
  function GetOr<T>(f: Field<T>, default: T): (r: Option<T>)
    ensures r.None? <==> f.Null?
    ensures f.Absent? ==> r == Some(default)
  {
    match f
    case Absent => Some(default)
    case Null => None
    case Given(v) => Some(v)
  }

  /** A value decoded by Python's json module (numbers restricted to integers). */
  datatype Json =
    | JNull
    | JBool(b: bool)
    | JInt(i: int)
    | JString(s: string)
    | JArray(items: seq<Json>)
    | JObject(fields: seq<(string, Json)>)

  /** Python truthiness of a decoded JSON value. */
  predicate Truthy(j: Json) {
    match j
    case JNull => false
    case JBool(b) => b
    case JInt(i) => i != 0
    case JString(s) => s != ""
    case JArray(items) => items != []
    case JObject(fields) => fields != []
  }

  /** Truthiness of an optional string: None and "" are falsy. */
  predicate TruthyText(s: Option<string>) {
    s.Some? && s.value != ""
  }

  /** How an f-string renders an optional string (None prints as "None"). */
  function Show(s: Option<string>): string {
    if s.Some? then s.value else "None"
  }

  // ---------------------------------------------------------------------
  // Whitespace and strip
  // ---------------------------------------------------------------------

  /** `c.isspace()` in Python 3. */
  predicate IsSpace(c: char) {
    || c == ' ' || c == '\t' || c == '\n' || c == '\r'
    || c == '\U{000B}' || c == '\U{000C}'
    || ('\U{001C}' <= c <= '\U{001F}')
    || c == '\U{0085}' || c == '\U{00A0}' || c == '\U{1680}'
    || ('\U{2000}' <= c <= '\U{200A}')
    || c == '\U{2028}' || c == '\U{2029}' || c == '\U{202F}'
    || c == '\U{205F}' || c == '\U{3000}'
  }

  predicate AllSpace(s: string) {
    forall i :: 0 <= i < |s| ==> IsSpace(s[i])
  }

  /** `s.lstrip()`: the longest suffix of `s` that does not start with whitespace. */
  function TrimLeft(s: string): (r: string)
    ensures |r| <= |s|
    ensures r != [] ==> !IsSpace(r[0])
    ensures forall i :: 0 <= i < |s| - |r| ==> IsSpace(s[i])
  {
    if s != [] && IsSpace(s[0]) then TrimLeft(s[1..]) else s
  }

  /** `s.rstrip()`: the longest prefix of `s` that does not end with whitespace. */
  function TrimRight(s: string): (r: string)
    ensures |r| <= |s|
    ensures r != [] ==> !IsSpace(r[|r| - 1])
    ensures forall i :: |r| <= i < |s| ==> IsSpace(s[i])
  {
    if s != [] && IsSpace(s[|s| - 1]) then TrimRight(s[..|s| - 1]) else s
  }

  /** `s.strip()`. */
  function Strip(s: string): (r: string)
    ensures r == "" <==> AllSpace(s)
    ensures r != "" ==> !IsSpace(r[0]) && !IsSpace(r[|r| - 1])
  {
    var l := TrimLeft(s);
    var r := TrimRight(l);
    TrimLeftIsSuffix(s);
    TrimRightIsPrefix(l);
    assert l != "" ==> !IsSpace(l[0]);
    r
  }

  /** What `lstrip` keeps is a suffix of the input. */
  lemma {:induction false} TrimLeftIsSuffix(s: string)
    ensures TrimLeft(s) == s[|s| - |TrimLeft(s)|..]
  {
    if s != [] && IsSpace(s[0]) {
      TrimLeftIsSuffix(s[1..]);
    }
  }

  /** What `rstrip` keeps is a prefix of the input. */
  lemma {:induction false} TrimRightIsPrefix(s: string)
    ensures TrimRight(s) == s[..|TrimRight(s)|]
  {
    if s != [] && IsSpace(s[|s| - 1]) {
      TrimRightIsPrefix(s[..|s| - 1]);
    }
  }

  lemma TrimLeftOfNonSpace(s: string)
    requires s != [] && !IsSpace(s[0])
    ensures TrimLeft(s) == s
  {
  }

  lemma TrimRightOfNonSpace(s: string)
    requires s != [] && !IsSpace(s[|s| - 1])
    ensures TrimRight(s) == s
  {
  }

  /** Leading whitespace in front of `x` never survives `lstrip`. */
  lemma {:induction false} TrimLeftAfterSpaces(pre: string, x: string)
    requires AllSpace(pre)
    ensures TrimLeft(pre + x) == TrimLeft(x)
  {
    if pre != [] {
      assert (pre + x)[1..] == pre[1..] + x;
      TrimLeftAfterSpaces(pre[1..], x);
    } else {
      assert pre + x == x;
    }
  }

  /** `Strip` attaches no whitespace of its own: once stripped, a string is fixed. */
  lemma StripIdempotent(s: string)
    ensures Strip(Strip(s)) == Strip(s)
  {
    var r := Strip(s);
    if r != "" {
      TrimLeftOfNonSpace(r);
      TrimRightOfNonSpace(r);
    }
  }

  /** Stripping an indented line that starts with a non-space keeps its start. */
  lemma StripIndented(pre: string, x: string)
    requires AllSpace(pre) && x != [] && !IsSpace(x[0])
    ensures Strip(pre + x) == TrimRight(x)
  {
    TrimLeftAfterSpaces(pre, x);
    TrimLeftOfNonSpace(x);
  }

  /** A stripped line starts with `p` only if the unindented text does. */
  lemma StripStartsWith(pre: string, x: string, p: string)
    requires AllSpace(pre) && x != [] && !IsSpace(x[0])
    requires StartsWith(Strip(pre + x), p)
    ensures StartsWith(x, p)
  {
    StripIndented(pre, x);
    TrimRightIsPrefix(x);
    PrefixOfPrefix(TrimRight(x), x, p);
  }

  lemma PrefixOfPrefix(r: string, x: string, p: string)
    requires |r| <= |x| && r == x[..|r|]
    requires StartsWith(r, p)
    ensures StartsWith(x, p)
  {
    assert x[..|p|] == r[..|p|];
  }

  // ---------------------------------------------------------------------
  // Case, prefixes, containment
  // ---------------------------------------------------------------------

  /** Lower-casing of one character (ASCII letters only). */
  function LowerChar(c: char): char {
    if 'A' <= c <= 'Z' then (c as int + 32) as char else c
  }

  /** `s.lower()` restricted to ASCII letters. */
  function Lower(s: string): (r: string)
    ensures |r| == |s|
    ensures forall i :: 0 <= i < |s| ==> r[i] == LowerChar(s[i])
  {
    seq(|s|, i requires 0 <= i < |s| => LowerChar(s[i]))
  }

  predicate StartsWith(s: string, p: string) {
    |p| <= |s| && s[..|p|] == p
  }

  predicate EndsWith(s: string, p: string) {
    |p| <= |s| && s[|s| - |p|..] == p
  }

  /** `p in s` for strings: `s` or one of its suffixes starts with `p`. */
  predicate Contains(s: string, p: string)
    decreases |s|
  {
    StartsWith(s, p) || (s != [] && Contains(s[1..], p))
  }

  /** `p in s` holds exactly when `p` occurs at some position of `s`. */
  lemma {:induction false} ContainsOccurs(s: string, p: string)
    ensures Contains(s, p) <==> exists k :: OccursAt(s, p, k)
    decreases |s|
  {
    assert StartsWith(s, p) <==> OccursAt(s, p, 0);
    if s != [] {
      ContainsOccurs(s[1..], p);
      forall k | OccursAt(s[1..], p, k)
        ensures OccursAt(s, p, k + 1)
      {
        assert s[1..][k..k + |p|] == s[k + 1..k + 1 + |p|];
      }
      forall k | OccursAt(s, p, k) && k > 0
        ensures OccursAt(s[1..], p, k - 1)
      {
        assert s[1..][k - 1..k - 1 + |p|] == s[k..k + |p|];
      }
    }
  }

  predicate OccursAt(s: string, p: string, k: int) {
    0 <= k && k + |p| <= |s| && s[k..k + |p|] == p
  }

  /** `char * width` in Python: `n` copies of `s`, none when `n <= 0`. */
  function Repeat(s: string, n: int): (r: string)
    ensures |r| == if n <= 0 then 0 else n * |s|
    ensures |s| == 1 ==> forall i :: 0 <= i < |r| ==> r[i] == s[0]
    decreases if n <= 0 then 0 else n
  {
    if n <= 0 then "" else s + Repeat(s, n - 1)
  }

  // ---------------------------------------------------------------------
  // split and join
  // ---------------------------------------------------------------------

  /** `sep.join(parts)`. */
  function Join(parts: seq<string>, sep: string): string {
    if parts == [] then ""
    else if |parts| == 1 then parts[0]
    else parts[0] + sep + Join(parts[1..], sep)
  }

  /** `s.split(c)` for a one-character separator. */
  function Split(s: string, c: char): (r: seq<string>)
    ensures |r| >= 1
    ensures forall k :: 0 <= k < |r| ==> c !in r[k]
  {
    if s == [] then [""]
    else
      var rest := Split(s[1..], c);
      if s[0] == c then [""] + rest else [[s[0]] + rest[0]] + rest[1..]
  }

  /** `c.join(s.split(c)) == s`. */
  lemma {:induction false} JoinSplit(s: string, c: char)
    ensures Join(Split(s, c), [c]) == s
  {
    if s != [] {
      var rest := Split(s[1..], c);
      JoinSplit(s[1..], c);
      if s[0] == c {
        assert Split(s, c) == [""] + rest;
        assert Join(Split(s, c), [c]) == "" + [c] + Join(rest, [c]);
      } else if |rest| == 1 {
        assert Split(s, c) == [[s[0]] + rest[0]];
      } else {
        var r := Split(s, c);
        assert r == [[s[0]] + rest[0]] + rest[1..];
        assert r[1..] == rest[1..];
        assert Join(r, [c]) == [s[0]] + rest[0] + [c] + Join(rest[1..], [c]);
        assert Join(rest, [c]) == rest[0] + [c] + Join(rest[1..], [c]);
      }
    }
  }

  /** Splitting the join of separator-free parts gives the parts back. */
  lemma {:induction false} SplitJoin(parts: seq<string>, c: char)
    requires |parts| >= 1
    requires forall k :: 0 <= k < |parts| ==> c !in parts[k]
    ensures Split(Join(parts, [c]), c) == parts
  {
    if |parts| == 1 {
      SplitNoSeparator(parts[0], c);
    } else {
      SplitJoin(parts[1..], c);
      SplitPrefix(parts[0], Join(parts[1..], [c]), c);
    }
  }

  lemma {:induction false} SplitNoSeparator(s: string, c: char)
    requires c !in s
    ensures Split(s, c) == [s]
  {
    if s != [] {
      assert s[0] != c;
      SplitNoSeparator(s[1..], c);
      assert [s[0]] + s[1..] == s;
    }
  }

  lemma {:induction false} SplitPrefix(p: string, rest: string, c: char)
    requires c !in p
    ensures Split(p + [c] + rest, c) == [p] + Split(rest, c)
  {
    if p == [] {
      assert p + [c] + rest == [c] + rest;
      assert ([c] + rest)[0] == c;
      assert ([c] + rest)[1..] == rest;
    } else {
      var whole := p + [c] + rest;
      assert whole[0] == p[0] && whole[0] != c;
      assert whole[1..] == p[1..] + [c] + rest;
      SplitPrefix(p[1..], rest, c);
      var tail := Split(whole[1..], c);
      assert tail == [p[1..]] + Split(rest, c);
      assert Split(whole, c) == [[p[0]] + tail[0]] + tail[1..];
      assert [p[0]] + p[1..] == p;
    }
  }

  /** `s.split(c)[0]` is the part of `s` before its first `c`. */
  lemma {:induction false} SplitFirstIsPrefix(s: string, c: char)
    ensures StartsWith(s, Split(s, c)[0])
  {
    if s != [] && s[0] != c {
      SplitFirstIsPrefix(s[1..], c);
      assert Split(s, c)[0] == [s[0]] + Split(s[1..], c)[0];
    }
  }

  lemma JoinSnoc(parts: seq<string>, last: string, sep: string)
    requires parts != []
    ensures Join(parts + [last], sep) == Join(parts, sep) + sep + last
    decreases |parts|
  {
    if |parts| > 1 {
      assert (parts + [last])[1..] == parts[1..] + [last];
      JoinSnoc(parts[1..], last, sep);
    }
  }

  // ---------------------------------------------------------------------
  // Mapping over a sequence
  // ---------------------------------------------------------------------

  /** Regrouping concatenations, which the solver finds costly on its own. */
  lemma ConcatAssoc3<T>(a: seq<T>, b: seq<T>, c: seq<T>)
    ensures (a + b) + c == a + (b + c)
  {
  }

  lemma ConcatAssoc<T>(a: seq<T>, b: seq<T>, c: seq<T>, d: seq<T>)
    ensures ((a + b) + c) + d == a + ((b + c) + d)
  {
  }

  /** `[f(x) for x in s]`. */
  function Map<A, B>(f: A -> B, s: seq<A>): (r: seq<B>)
    ensures |r| == |s|
  {
    if s == [] then [] else Map(f, s[..|s| - 1]) + [f(s[|s| - 1])]
  }

  /** `any(f(x) for x in s)`. */
  predicate Any<T>(f: T -> bool, s: seq<T>) {
    if s == [] then false else Any(f, s[..|s| - 1]) || f(s[|s| - 1])
  }

  lemma {:induction false} AnyExists<T>(f: T -> bool, s: seq<T>)
    ensures Any(f, s) <==> exists i :: 0 <= i < |s| && f(s[i])
  {
    if s != [] {
      var front := s[..|s| - 1];
      AnyExists(f, front);
      assert forall i :: 0 <= i < |front| ==> front[i] == s[i];
    }
  }

  lemma {:induction false} MapIndex<A, B>(f: A -> B, s: seq<A>, k: nat)
    requires k < |s|
    ensures Map(f, s)[k] == f(s[k])
  {
    if k < |s| - 1 {
      MapIndex(f, s[..|s| - 1], k);
    }
  }

  lemma MapSnoc<A, B>(f: A -> B, s: seq<A>, x: A)
    ensures Map(f, s + [x]) == Map(f, s) + [f(x)]
  {
    assert (s + [x])[..|s|] == s;
  }

  /** A loop that maps one more element extends the mapped prefix. */
  lemma MapPrefixStep<A, B>(f: A -> B, s: seq<A>, k: nat)
    requires k < |s|
    ensures Map(f, s[..k + 1]) == Map(f, s[..k]) + [f(s[k])]
  {
    assert s[..k + 1] == s[..k] + [s[k]];
    MapSnoc(f, s[..k], s[k]);
  }

  /** Two functions that agree on every element map a sequence alike. */
  lemma {:induction false} MapPointwise<A, B>(f: A -> B, g: A -> B, s: seq<A>)
    requires forall k :: 0 <= k < |s| ==> f(s[k]) == g(s[k])
    ensures Map(f, s) == Map(g, s)
  {
    if s != [] {
      MapPointwise(f, g, s[..|s| - 1]);
    }
  }

  lemma {:induction false} MapAppend<A, B>(f: A -> B, s: seq<A>, t: seq<A>)
    ensures Map(f, s + t) == Map(f, s) + Map(f, t)
    decreases |t|
  {
    if t == [] {
      assert s + t == s;
    } else {
      var t' := t[..|t| - 1];
      var x := t[|t| - 1];
      assert t == t' + [x];
      assert s + t == (s + t') + [x];
      MapAppend(f, s, t');
      MapSnoc(f, s + t', x);
      MapSnoc(f, t', x);
      ConcatAssoc3(Map(f, s), Map(f, t'), [f(x)]);
    }
  }

  /** Mapping a slice is slicing the mapped sequence. */
  lemma MapSlice<A, B>(f: A -> B, s: seq<A>, lo: nat, hi: nat)
    requires lo <= hi <= |s|
    ensures Map(f, s[lo..hi]) == Map(f, s)[lo..hi]
  {
    SliceParts(s, lo, hi);
    MapAppend(f, s[..lo] + s[lo..hi], s[hi..]);
    MapAppend(f, s[..lo], s[lo..hi]);
    PartsSlice(Map(f, s[..lo]), Map(f, s[lo..hi]), Map(f, s[hi..]));
  }

  lemma SliceParts<T>(s: seq<T>, lo: nat, hi: nat)
    requires lo <= hi <= |s|
    ensures s == s[..lo] + s[lo..hi] + s[hi..]
  {
    assert s[..lo] + s[lo..hi] == s[..hi] by {
      assert s[..hi][..lo] == s[..lo] && s[..hi][lo..] == s[lo..hi];
    }
    assert s == s[..hi] + s[hi..];
  }

  lemma PartsSlice<T>(a: seq<T>, m: seq<T>, c: seq<T>)
    ensures (a + m + c)[|a|..|a| + |m|] == m
  {
    assert (a + m + c)[..|a| + |m|] == a + m;
    assert (a + m)[|a|..] == m;
  }

  /** `[x for x in s if f(x)]`. */
  function Filter<T(!new)>(f: T -> bool, s: seq<T>): (r: seq<T>)
    ensures |r| <= |s|
    ensures forall x :: x in r <==> x in s && f(x)
  {
    if s == [] then [] else (if f(s[0]) then [s[0]] else []) + Filter(f, s[1..])
  }

  lemma {:induction false} FilterAppend<T(!new)>(f: T -> bool, s: seq<T>, t: seq<T>)
    ensures Filter(f, s + t) == Filter(f, s) + Filter(f, t)
  {
    if s == [] {
      assert s + t == t;
    } else {
      assert (s + t)[1..] == s[1..] + t;
      FilterAppend(f, s[1..], t);
    }
  }

  /** A relation that holds between every earlier and later element of `s` still
      holds after filtering: filtering keeps the order. */
  lemma {:induction false} FilterPairwise<T(!new)>(f: T -> bool, s: seq<T>, rel: (T, T) -> bool)
    requires forall i, j :: 0 <= i < j < |s| ==> rel(s[i], s[j])
    ensures forall i, j :: 0 <= i < j < |Filter(f, s)| ==> rel(Filter(f, s)[i], Filter(f, s)[j])
  {
    if s != [] {
      var tail := s[1..];
      assert forall i, j :: 0 <= i < j < |tail| ==> tail[i] == s[i + 1] && tail[j] == s[j + 1];
      FilterPairwise(f, tail, rel);
      var r := Filter(f, s);
      var rt := Filter(f, tail);
      if f(s[0]) {
        assert r == [s[0]] + rt;
        forall i, j | 0 <= i < j < |r|
          ensures rel(r[i], r[j])
        {
          assert r[j] == rt[j - 1];
          if i == 0 {
            assert rt[j - 1] in tail;
            var k :| 0 <= k < |tail| && tail[k] == rt[j - 1];
            assert s[k + 1] == r[j];
          } else {
            assert r[i] == rt[i - 1];
          }
        }
      } else {
        assert r == rt;
      }
    }
  }

  /** What a filter and its complement keep add up to the whole. */
  lemma {:induction false} FilterComplement<T(!new)>(f: T -> bool, g: T -> bool, s: seq<T>)
    requires forall x :: x in s ==> (g(x) <==> !f(x))
    ensures |Filter(f, s)| + |Filter(g, s)| == |s|
  {
    if s != [] {
      assert forall x :: x in s[1..] ==> x in s;
      FilterComplement(f, g, s[1..]);
    }
  }

  // ---------------------------------------------------------------------
  // Decimal integers: str(n) and int(s)
  // ---------------------------------------------------------------------

  predicate IsDigit(c: char) {
    '0' <= c <= '9'
  }

  function DigitChar(d: nat): char
    requires d < 10
  {
    (48 + d) as char
  }

  function DigitValue(c: char): nat
    requires IsDigit(c)
  {
    c as int - 48
  }

  /** `str(n)` for a natural number. */
  function NatToString(n: nat): (r: string)
    ensures r != [] && forall i :: 0 <= i < |r| ==> IsDigit(r[i])
  {
    if n < 10 then [DigitChar(n)] else NatToString(n / 10) + [DigitChar(n % 10)]
  }

  /** `str(i)` for an integer. */
  function IntToString(i: int): (r: string)
    ensures r != [] && IsDigit(r[|r| - 1])
    ensures forall k :: 0 <= k < |r| ==> IsDigit(r[k]) || r[k] == '-'
  {
    if i < 0 then "-" + NatToString(-i) else NatToString(i)
  }

  /** The characters Python's `int()` accepts in the digit part of a decimal literal. */
  predicate DigitsWellFormed(d: string) {
    && d != []
    && IsDigit(d[0]) && IsDigit(d[|d| - 1])
    && (forall i :: 0 <= i < |d| ==> IsDigit(d[i]) || d[i] == '_')
    && NoDoubleUnderscore(d)
  }

  /** No two underscores stand next to each other. */
  predicate NoDoubleUnderscore(d: string) {
    |d| < 2 || (!(d[0] == '_' && d[1] == '_') && NoDoubleUnderscore(d[1..]))
  }

  /** The value of a run of digits, underscores ignored. */
  function DecimalValue(d: string): nat
    requires forall i :: 0 <= i < |d| ==> IsDigit(d[i]) || d[i] == '_'
  {
    if d == [] then 0
    else if d[|d| - 1] == '_' then DecimalValue(d[..|d| - 1])
    else DecimalValue(d[..|d| - 1]) * 10 + DigitValue(d[|d| - 1])
  }

  /** `int(s)`: None where Python raises ValueError. */
  function ParseInt(s: string): Option<int> {
    var t := Strip(s);
    if t == "" then None
    else
      var neg := t[0] == '-';
      var body := if t[0] == '-' || t[0] == '+' then t[1..] else t;
      if DigitsWellFormed(body) then
        var magnitude: int := DecimalValue(body);
        Some(if neg then -magnitude else magnitude)
      else None
  }

  lemma {:induction false} DecimalValueOfNat(n: nat)
    ensures DecimalValue(NatToString(n)) == n
  {
    var r := NatToString(n);
    if n >= 10 {
      DecimalValueOfNat(n / 10);
      assert r[..|r| - 1] == NatToString(n / 10);
    }
  }

  lemma {:induction false} DigitsHaveNoUnderscores(d: string)
    requires forall i :: 0 <= i < |d| ==> IsDigit(d[i])
    ensures NoDoubleUnderscore(d)
  {
    if |d| >= 2 {
      DigitsHaveNoUnderscores(d[1..]);
    }
  }

  /** `int(str(i)) == i`. */
  lemma IntStringRoundTrip(i: int)
    ensures ParseInt(IntToString(i)) == Some(i)
  {
    var s := IntToString(i);
    var n: nat := if i < 0 then -i else i;
    var d := NatToString(n);
    NumeralIsStripped(s);
    if i < 0 {
      assert s[1..] == d;
    } else {
      assert s == d;
    }
    DigitsHaveNoUnderscores(d);
    DecimalValueOfNat(n);
  }

  /** A numeral has no whitespace around it for `strip` to remove. */
  lemma NumeralIsStripped(s: string)
    requires s != [] && IsDigit(s[|s| - 1])
    requires forall k :: 0 <= k < |s| ==> IsDigit(s[k]) || s[k] == '-'
    ensures Strip(s) == s
  {
    assert !IsSpace(s[0]) && !IsSpace(s[|s| - 1]);
    TrimLeftOfNonSpace(s);
    TrimRightOfNonSpace(s);
  }
}
