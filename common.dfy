/** Shared vocabulary of the back office model: optional values, ASCII case
    mapping, JavaScript's `String.prototype.includes`, number-to-string
    conversion, `parseInt`, `Array.prototype.filter` and the
    `[...new Set(xs)]` idiom that removes duplicates in first-seen order. */
module Common {

  datatype Option<T> = None | Some(value: T)

  // ---------------------------------------------------------------------
  // ASCII case mapping (JavaScript's toLowerCase/toUpperCase restricted to ASCII)

  predicate IsUpperChar(c: char) { 'A' <= c <= 'Z' }
  predicate IsLowerChar(c: char) { 'a' <= c <= 'z' }

  function LowerChar(c: char): char
  {
    if IsUpperChar(c) then (c as int + 32) as char else c
  }

  function UpperChar(c: char): char
  {
    if IsLowerChar(c) then (c as int - 32) as char else c
  }

  function ToLower(s: string): string
  {
    if s == [] then [] else [LowerChar(s[0])] + ToLower(s[1..])
  }

  function ToUpper(s: string): string
  {
    if s == [] then [] else [UpperChar(s[0])] + ToUpper(s[1..])
  }

  /** A string with no upper-case ASCII letter. */
  predicate IsLowerCase(s: string)
  {
    forall i :: 0 <= i < |s| ==> !IsUpperChar(s[i])
  }

  lemma {:induction false} ToLowerShape(s: string)
    ensures |ToLower(s)| == |s|
    ensures forall i :: 0 <= i < |s| ==> ToLower(s)[i] == LowerChar(s[i])
  {
    if s != [] {
      ToLowerShape(s[1..]);
      assert ToLower(s) == [LowerChar(s[0])] + ToLower(s[1..]);
    }
  }

  lemma {:induction false} ToUpperShape(s: string)
    ensures |ToUpper(s)| == |s|
    ensures forall i :: 0 <= i < |s| ==> ToUpper(s)[i] == UpperChar(s[i])
  {
    if s != [] {
      ToUpperShape(s[1..]);
      assert ToUpper(s) == [UpperChar(s[0])] + ToUpper(s[1..]);
    }
  }

  /** Lowercasing leaves no upper-case letter, changes only letters, and is
      idempotent. */
  lemma ToLowerIsLowerCase(s: string)
    ensures |ToLower(s)| == |s|
    ensures IsLowerCase(ToLower(s))
    ensures ToLower(ToLower(s)) == ToLower(s)
    ensures forall i :: 0 <= i < |s| && !IsUpperChar(s[i]) ==> ToLower(s)[i] == s[i]
  {
    ToLowerShape(s);
    ToLowerShape(ToLower(s));
  }

  /** Upper-casing forgets whether the string was lower-cased first. */
  lemma UpperOfLower(s: string)
    ensures ToUpper(ToLower(s)) == ToUpper(s)
  {
    ToLowerShape(s);
    ToUpperShape(ToLower(s));
    ToUpperShape(s);
  }

  lemma ToLowerOfLowerCase(s: string)
    requires IsLowerCase(s)
    ensures ToLower(s) == s
  {
    ToLowerShape(s);
  }

  /** Two strings that are equal up to ASCII case. */
  predicate EqualIgnoringCase(a: string, b: string)
  {
    ToLower(a) == ToLower(b)
  }

  // ---------------------------------------------------------------------
  // String.prototype.includes and String.prototype.substring

  predicate IsPrefix<T(==)>(p: seq<T>, s: seq<T>)
  {
    |p| <= |s| && s[..|p|] == p
  }

  /** `s || ''` for a nullable string. */
  function OrEmpty(s: Option<string>): string
  {
    if s.Some? then s.value else ""
  }

  /** `hay.includes(needle)`: needle occurs at some offset of hay. */
  predicate Includes(hay: string, needle: string)
    decreases |hay|
  {
    IsPrefix(needle, hay) || (hay != [] && Includes(hay[1..], needle))
  }

  lemma IncludesEmpty(hay: string)
    ensures Includes(hay, "")
  {
  }

  lemma {:induction false} IncludesAt(hay: string, needle: string, k: nat)
    requires k + |needle| <= |hay| && hay[k..k + |needle|] == needle
    ensures Includes(hay, needle)
  {
    if k > 0 {
      assert hay[1..][k - 1..k - 1 + |needle|] == hay[k..k + |needle|];
      IncludesAt(hay[1..], needle, k - 1);
    } else {
      assert hay[..|needle|] == needle;
    }
  }

  /** `s.substring(0, n)` or `s.slice(0, n)` for n >= 0: the first n
      elements, or all of s. */
  function Prefix<T(==)>(s: seq<T>, n: nat): (r: seq<T>)
    ensures |r| == if |s| < n then |s| else n
    ensures IsPrefix(r, s)
  {
    if |s| <= n then s else s[..n]
  }

  // ---------------------------------------------------------------------
  // Number.prototype.toString and template literals `${n}` for integers

  function DigitChar(d: nat): char
    requires d < 10
  {
    ('0' as int + d) as char
  }

  predicate IsDigit(c: char) { '0' <= c <= '9' }

  function DigitValue(c: char): nat
    requires IsDigit(c)
  {
    c as int - '0' as int
  }

  function NatToString(n: nat): (r: string)
    ensures |r| >= 1
    ensures forall i :: 0 <= i < |r| ==> IsDigit(r[i])
    ensures n > 0 ==> r[0] != '0'
    decreases n
  {
    if n < 10 then [DigitChar(n)] else NatToString(n / 10) + [DigitChar(n % 10)]
  }

  function IntToString(n: int): string
  {
    if n < 0 then "-" + NatToString(-n) else NatToString(n)
  }

  // ---------------------------------------------------------------------
  // parseInt(s) with no radix, as the browser evaluates it on input values

  /** JavaScript's StrWhiteSpaceChar, which `trim` and `parseInt` skip: the
      WhiteSpace characters (tab, vertical tab, form feed, space, no-break
      space, the byte order mark and the Unicode space separators) and the
      LineTerminator characters (line feed, carriage return, line and
      paragraph separators). */
  predicate IsSpace(c: char)
  {
    || c == '\t' || c == '\U{B}' || c == '\U{C}' || c == ' ' || c == '\U{A0}' || c == '\U{FEFF}'
    || c == '\U{1680}' || '\U{2000}' <= c <= '\U{200A}' || c == '\U{202F}' || c == '\U{205F}' || c == '\U{3000}'
    || c == '\n' || c == '\r' || c == '\U{2028}' || c == '\U{2029}'
  }

  /** The number of white space characters that open s. */
  function LeadingSpaces(s: string): (n: nat)
    ensures n <= |s|
    ensures forall i :: 0 <= i < n ==> IsSpace(s[i])
    ensures n < |s| ==> !IsSpace(s[n])
  {
    if s != [] && IsSpace(s[0]) then
      var m := LeadingSpaces(s[1..]);
      assert forall i :: 1 <= i <= m ==> s[i] == s[1..][i - 1];
      1 + m
    else 0
  }

  function TrimStart(s: string): string
  {
    s[LeadingSpaces(s)..]
  }

  /** `s.trim() === ''`: every character of s is white space. */
  predicate IsBlank(s: string)
  {
    forall i :: 0 <= i < |s| ==> IsSpace(s[i])
  }

  lemma TrimStartEmptyIffBlank(s: string)
    ensures TrimStart(s) == [] <==> IsBlank(s)
  {
  }

  function DecimalPrefix(s: string): (r: string)
    ensures IsPrefix(r, s)
    ensures forall i :: 0 <= i < |r| ==> IsDigit(r[i])
    ensures |r| < |s| ==> !IsDigit(s[|r|])
  {
    if s != [] && IsDigit(s[0]) then [s[0]] + DecimalPrefix(s[1..]) else []
  }

  function DecimalValue(s: string): nat
    requires forall i :: 0 <= i < |s| ==> IsDigit(s[i])
  {
    if s == [] then 0 else DecimalValue(s[..|s| - 1]) * 10 + DigitValue(s[|s| - 1])
  }

  predicate IsHexDigit(c: char)
  {
    IsDigit(c) || 'a' <= c <= 'f' || 'A' <= c <= 'F'
  }

  function HexDigitValue(c: char): nat
    requires IsHexDigit(c)
  {
    if IsDigit(c) then DigitValue(c)
    else if 'a' <= c <= 'f' then c as int - 'a' as int + 10
    else c as int - 'A' as int + 10
  }

  function HexPrefix(s: string): (r: string)
    ensures IsPrefix(r, s)
    ensures forall i :: 0 <= i < |r| ==> IsHexDigit(r[i])
  {
    if s != [] && IsHexDigit(s[0]) then [s[0]] + HexPrefix(s[1..]) else []
  }

  function HexValue(s: string): nat
    requires forall i :: 0 <= i < |s| ==> IsHexDigit(s[i])
  {
    if s == [] then 0 else HexValue(s[..|s| - 1]) * 16 + HexDigitValue(s[|s| - 1])
  }

  /** The digits after the sign: a `0x`/`0X` prefix selects hexadecimal,
      otherwise decimal; the longest run of digits is the value, and no digit
      at all is NaN (None). */
  function ParseDigits(u: string): Option<nat>
  {
    if |u| >= 2 && u[0] == '0' && (u[1] == 'x' || u[1] == 'X') then
      var d := HexPrefix(u[2..]);
      if d == [] then None else Some(HexValue(d))
    else
      var d := DecimalPrefix(u);
      if d == [] then None else Some(DecimalValue(d))
  }

  /** `parseInt(s)`: None stands for NaN. Leading white space is skipped and
      one sign is accepted before the digits. */
  function ParseInt(s: string): Option<int>
  {
    var t := TrimStart(s);
    if t != [] && t[0] == '-' then
      match ParseDigits(t[1..])
      case None => None
      case Some(v) => Some(-(v as int))
    else if t != [] && t[0] == '+' then
      match ParseDigits(t[1..])
      case None => None
      case Some(v) => Some(v)
    else
      match ParseDigits(t)
      case None => None
      case Some(v) => Some(v)
  }

  lemma {:induction false} DecimalValueOfNatToString(n: nat)
    ensures DecimalValue(NatToString(n)) == n
    decreases n
  {
    var r := NatToString(n);
    if n >= 10 {
      DecimalValueOfNatToString(n / 10);
      assert r[..|r| - 1] == NatToString(n / 10);
    }
  }

  lemma {:induction false} DecimalPrefixOfDigits(s: string)
    requires forall i :: 0 <= i < |s| ==> IsDigit(s[i])
    ensures DecimalPrefix(s) == s
  {
    if s != [] {
      DecimalPrefixOfDigits(s[1..]);
    }
  }

  lemma ParseDigitsOfNatToString(m: nat)
    ensures ParseDigits(NatToString(m)) == Some(m)
  {
    var d := NatToString(m);
    DecimalPrefixOfDigits(d);
    DecimalValueOfNatToString(m);
    if m < 10 {
      assert |d| == 1;
    }
  }

  lemma ParseIntOfNatToString(m: nat)
    ensures ParseInt(NatToString(m)) == Some(m)
  {
    var d := NatToString(m);
    assert IsDigit(d[0]);
    assert TrimStart(d) == d;
    ParseDigitsOfNatToString(m);
  }

  /** A minus sign followed by digits is read as the negated digits. */
  lemma ParseIntOfMinus(d: string)
    requires d != [] && IsDigit(d[0])
    ensures ParseInt("-" + d) == match ParseDigits(d) case None => None case Some(v) => Some(-(v as int))
  {
    var s := "-" + d;
    assert !IsSpace(s[0]);
    assert TrimStart(s) == s;
    assert s[1..] == d;
  }

  lemma ParseIntOfNegated(m: nat)
    ensures ParseInt("-" + NatToString(m)) == Some(-(m as int))
  {
    var d := NatToString(m);
    ParseDigitsOfNatToString(m);
    assert IsDigit(d[0]);
    ParseIntOfMinus(d);
    assert ParseDigits(d) == Some(m);
  }

  /** parseInt reads back what `${n}` writes: the integer to string
      conversion and parseInt are inverse on integers. */
  lemma ParseIntOfIntToString(n: int)
    ensures ParseInt(IntToString(n)) == Some(n)
  {
    if n < 0 {
      ParseIntOfNegated(-n);
    } else {
      ParseIntOfNatToString(n);
    }
  }

  // ---------------------------------------------------------------------
  // Array.prototype.filter and subsequences

  /** a is obtained from b by deleting elements, keeping the order. */
  predicate IsSubsequence<T(==)>(a: seq<T>, b: seq<T>)
    decreases |b|
  {
    if a == [] then true
    else if b == [] then false
    else if a[0] == b[0] then IsSubsequence(a[1..], b[1..])
    else IsSubsequence(a, b[1..])
  }

  lemma {:induction false} IsSubsequenceRefl<T>(a: seq<T>)
    ensures IsSubsequence(a, a)
  {
    if a != [] {
      IsSubsequenceRefl(a[1..]);
    }
  }

  lemma {:induction false} IsSubsequenceMembers<T>(a: seq<T>, b: seq<T>)
    requires IsSubsequence(a, b)
    ensures forall x :: x in a ==> x in b
    ensures |a| <= |b|
    decreases |b|
  {
    if a != [] && b != [] {
      assert forall x :: x in a ==> x == a[0] || x in a[1..];
      assert forall x :: x in b[1..] ==> x in b;
      if a[0] == b[0] {
        IsSubsequenceMembers(a[1..], b[1..]);
      } else {
        IsSubsequenceMembers(a, b[1..]);
      }
    }
  }

  lemma {:induction false} IsSubsequenceAppend<T>(a: seq<T>, b: seq<T>, x: T, keep: bool)
    requires IsSubsequence(a, b)
    ensures IsSubsequence(if keep then a + [x] else a, b + [x])
    decreases |b|
  {
    if a == [] {
      if keep {
        SingletonSubsequence(x, b + [x], |b|);
        assert a + [x] == [x];
      }
    } else {
      assert b != [];
      assert (b + [x])[1..] == b[1..] + [x];
      if a[0] == b[0] {
        IsSubsequenceAppend(a[1..], b[1..], x, keep);
        if keep { assert (a + [x])[1..] == a[1..] + [x]; }
      } else {
        IsSubsequenceAppend(a, b[1..], x, keep);
      }
    }
  }

  lemma {:induction false} SingletonSubsequence<T>(x: T, b: seq<T>, k: nat)
    requires k < |b| && b[k] == x
    ensures IsSubsequence([x], b)
    decreases k
  {
    if b[0] != x {
      SingletonSubsequence(x, b[1..], k - 1);
    }
  }

  function Filter<T(!new)>(s: seq<T>, p: T -> bool): (r: seq<T>)
    ensures |r| <= |s|
    ensures forall x :: x in r <==> x in s && p(x)
    ensures (forall i :: 0 <= i < |s| ==> p(s[i])) ==> r == s
  {
    if s == [] then []
    else if p(s[0]) then [s[0]] + Filter(s[1..], p)
    else Filter(s[1..], p)
  }

  lemma {:induction false} FilterIsSubsequence<T(!new)>(s: seq<T>, p: T -> bool)
    ensures IsSubsequence(Filter(s, p), s)
  {
    if s != [] {
      FilterIsSubsequence(s[1..], p);
      if p(s[0]) {
        assert ([s[0]] + Filter(s[1..], p))[1..] == Filter(s[1..], p);
      } else {
        var f := Filter(s[1..], p);
        if f != [] {
          assert f[0] in f;
          assert !p(s[0]);
        }
      }
    }
  }

  lemma {:induction false} FilterAppend<T(!new)>(s: seq<T>, t: seq<T>, p: T -> bool)
    ensures Filter(s + t, p) == Filter(s, p) + Filter(t, p)
  {
    if s != [] {
      assert (s + t)[1..] == s[1..] + t;
      FilterAppend(s[1..], t, p);
    } else {
      assert s + t == t;
    }
  }

  /** Nothing passes the filter when no element satisfies the predicate. */
  lemma FilterNone<T(!new)>(s: seq<T>, p: T -> bool)
    requires forall x :: x in s ==> !p(x)
    ensures Filter(s, p) == []
  {
  }

  function Count<T>(s: seq<T>, p: T -> bool): (n: nat)
    ensures n <= |s|
  {
    if s == [] then 0 else (if p(s[0]) then 1 else 0) + Count(s[1..], p)
  }

  lemma {:induction false} CountIsFilterLength<T(!new)>(s: seq<T>, p: T -> bool)
    ensures Count(s, p) == |Filter(s, p)|
  {
    if s != [] {
      CountIsFilterLength(s[1..], p);
    }
  }

  lemma {:induction false} CountAppend<T>(s: seq<T>, t: seq<T>, p: T -> bool)
    ensures Count(s + t, p) == Count(s, p) + Count(t, p)
  {
    if s != [] {
      assert (s + t)[1..] == s[1..] + t;
      CountAppend(s[1..], t, p);
    } else {
      assert s + t == t;
    }
  }

  /** An element and its complement split a sequence: every element is
      counted by exactly one of the two predicates. */
  lemma {:induction false} CountComplement<T>(s: seq<T>, p: T -> bool, q: T -> bool)
    requires forall x :: q(x) == !p(x)
    ensures Count(s, p) + Count(s, q) == |s|
  {
    if s != [] {
      CountComplement(s[1..], p, q);
    }
  }

  // ---------------------------------------------------------------------
  // [...new Set(xs)]: the distinct values of xs in order of first appearance

  lemma AppendAssoc<T>(a: seq<T>, b: seq<T>, c: seq<T>)
    ensures (a + b) + c == a + (b + c)
  {
  }

  lemma PrefixSnoc<T>(s: seq<T>, i: nat)
    requires i < |s|
    ensures s[..i + 1] == s[..i] + [s[i]]
  {
  }

  lemma SnocPrefix<T>(s: seq<T>, x: T)
    ensures (s + [x])[..|s|] == s
  {
  }

  predicate NoDuplicates<T(==)>(s: seq<T>)
  {
    forall i, j :: 0 <= i < j < |s| ==> s[i] != s[j]
  }

  lemma NoDuplicatesAppend<T>(a: seq<T>, b: seq<T>)
    requires NoDuplicates(a) && NoDuplicates(b)
    requires forall i, j :: 0 <= i < |a| && 0 <= j < |b| ==> a[i] != b[j]
    ensures NoDuplicates(a + b)
  {
  }

  function Distinct<T(==,!new)>(s: seq<T>): (r: seq<T>)
    ensures NoDuplicates(r)
    ensures forall x :: x in r <==> x in s
    ensures |r| <= |s|
  {
    if s == [] then []
    else
      var r := Distinct(s[..|s| - 1]);
      assert forall x :: x in s <==> x in s[..|s| - 1] || x == s[|s| - 1];
      if s[|s| - 1] in r then r else r + [s[|s| - 1]]
  }

  lemma {:induction false} DistinctIsSubsequence<T(!new)>(s: seq<T>)
    ensures IsSubsequence(Distinct(s), s)
  {
    if s != [] {
      var init := s[..|s| - 1];
      DistinctIsSubsequence(init);
      IsSubsequenceAppend(Distinct(init), init, s[|s| - 1], s[|s| - 1] !in Distinct(init));
      assert init + [s[|s| - 1]] == s;
    }
  }

  /** Appending one element to the input appends it to the distinct values
      exactly when it is new. */
  lemma DistinctSnoc<T(!new)>(s: seq<T>, x: T)
    ensures Distinct(s + [x]) == if x in Distinct(s) then Distinct(s) else Distinct(s) + [x]
  {
    assert (s + [x])[..|s|] == s;
  }

  /** The distinct values of a prefix lead the distinct values of the whole:
      each value is placed where it first appears. */
  lemma {:induction false} DistinctPrefix<T(!new)>(s: seq<T>, k: nat)
    requires k <= |s|
    ensures Distinct(s[..k]) <= Distinct(s)
  {
    if k < |s| {
      var init := s[..|s| - 1];
      assert init[..k] == s[..k];
      DistinctPrefix(init, k);
    } else {
      assert s[..k] == s;
    }
  }

  /** Deleting elements keeps a sequence free of duplicates. */
  lemma {:induction false} NoDuplicatesOfSubsequence<T>(a: seq<T>, b: seq<T>)
    requires IsSubsequence(a, b) && NoDuplicates(b)
    ensures NoDuplicates(a)
    decreases |b|
  {
    if a != [] && b != [] {
      if a[0] == b[0] {
        NoDuplicatesOfSubsequence(a[1..], b[1..]);
        IsSubsequenceMembers(a[1..], b[1..]);
        assert b[0] !in b[1..];
        forall i, j | 0 <= i < j < |a|
          ensures a[i] != a[j]
        {
          if i == 0 {
            assert a[j] == a[1..][j - 1];
          } else {
            assert a[i] == a[1..][i - 1] && a[j] == a[1..][j - 1];
          }
        }
      } else {
        NoDuplicatesOfSubsequence(a, b[1..]);
      }
    }
  }

  /** Appending values that already occur does not change the distinct
      values. */
  lemma {:induction false} DistinctAppendKnown<T(!new)>(s: seq<T>, t: seq<T>)
    requires forall x :: x in t ==> x in s
    ensures Distinct(s + t) == Distinct(s)
    decreases |t|
  {
    if t == [] {
      assert s + t == s;
    } else {
      var init := t[..|t| - 1];
      var x := t[|t| - 1];
      assert forall y :: y in init ==> y in t;
      DistinctAppendKnown(s, init);
      AppendAssoc(s, init, [x]);
      assert init + [x] == t;
      DistinctSnoc(s + init, x);
      assert x in Distinct(s + init);
    }
  }

  /** Distinct applied to a duplicate-free sequence changes nothing. */
  lemma {:induction false} DistinctOfNoDuplicates<T(!new)>(s: seq<T>)
    requires NoDuplicates(s)
    ensures Distinct(s) == s
  {
    if s != [] {
      var init := s[..|s| - 1];
      DistinctOfNoDuplicates(init);
      assert s[|s| - 1] !in init;
      assert init + [s[|s| - 1]] == s;
    }
  }

  // ---------------------------------------------------------------------
  // Sums

  function Sum<T>(s: seq<T>, f: T -> int): int
  {
    if s == [] then 0 else f(s[0]) + Sum(s[1..], f)
  }

  lemma {:induction false} SumAppend<T>(s: seq<T>, t: seq<T>, f: T -> int)
    ensures Sum(s + t, f) == Sum(s, f) + Sum(t, f)
  {
    if s != [] {
      assert (s + t)[1..] == s[1..] + t;
      SumAppend(s[1..], t, f);
    } else {
      assert s + t == t;
    }
  }

  // ---------------------------------------------------------------------
  // Array.prototype.map and select-box filters

  /** f applied to every element, in order. */
  function MapSeq<A, B>(s: seq<A>, f: A -> B): (r: seq<B>)
    ensures |r| == |s|
    ensures forall i :: 0 <= i < |s| ==> r[i] == f(s[i])
  {
    if s == [] then [] else [f(s[0])] + MapSeq(s[1..], f)
  }

  /** A value is in the mapped sequence exactly when some element maps to it. */
  lemma MapSeqMembers<A, B>(s: seq<A>, f: A -> B, y: B)
    ensures y in MapSeq(s, f) <==> exists x :: x in s && f(x) == y
  {
    var r := MapSeq(s, f);
    if y in r {
      var i :| 0 <= i < |r| && r[i] == y;
      assert s[i] in s && f(s[i]) == y;
    }
    if exists x :: x in s && f(x) == y {
      var x :| x in s && f(x) == y;
      var i :| 0 <= i < |s| && s[i] == x;
      assert r[i] == y;
    }
  }

  /** A select box whose "all" option keeps everything and whose other
      options keep only the exact value. */
  predicate MatchesChoice(choice: string, value: string)
  {
    choice == "all" || value == choice
  }

  // ---------------------------------------------------------------------
  // Concatenating one block per element

  /** f(x) for every x of xs, concatenated in order. */
  function FlatMap<A, B>(f: A -> seq<B>, xs: seq<A>): seq<B>
  {
    if xs == [] then [] else FlatMap(f, xs[..|xs| - 1]) + f(xs[|xs| - 1])
  }

  lemma FlatMapSnoc<A, B>(f: A -> seq<B>, xs: seq<A>, x: A)
    ensures FlatMap(f, xs + [x]) == FlatMap(f, xs) + f(x)
  {
    assert (xs + [x])[..|xs|] == xs;
  }

  lemma {:induction false} FlatMapSound<A, B>(f: A -> seq<B>, xs: seq<A>, y: B)
    requires y in FlatMap(f, xs)
    ensures exists x :: x in xs && y in f(x)
  {
    var init, last := xs[..|xs| - 1], xs[|xs| - 1];
    assert xs == init + [last];
    if y in FlatMap(f, init) {
      FlatMapSound(f, init, y);
      var x :| x in init && y in f(x);
      assert x in xs;
    } else {
      assert last in xs && y in f(last);
    }
  }

  lemma {:induction false} FlatMapComplete<A, B>(f: A -> seq<B>, xs: seq<A>, x: A, y: B)
    requires x in xs && y in f(x)
    ensures y in FlatMap(f, xs)
  {
    var init, last := xs[..|xs| - 1], xs[|xs| - 1];
    assert xs == init + [last];
    if x != last {
      assert x in init;
      FlatMapComplete(f, init, x, y);
    }
  }

  /** y occurs in the concatenation exactly when it occurs in the block of
      some element. */
  lemma FlatMapMembers<A, B>(f: A -> seq<B>, xs: seq<A>, y: B)
    ensures y in FlatMap(f, xs) <==> exists x :: x in xs && y in f(x)
  {
    if y in FlatMap(f, xs) {
      FlatMapSound(f, xs, y);
    } else {
      forall x | x in xs ensures y !in f(x) {
        if y in f(x) {
          FlatMapComplete(f, xs, x, y);
        }
      }
    }
  }

  // ---------------------------------------------------------------------
  // Array.prototype.find on a table of (key, value) entries

  /** The value of the first entry with the given key, if any. */
  function Find<K(==), V>(table: seq<(K, V)>, key: K): (r: Option<V>)
    ensures r.None? <==> forall i :: 0 <= i < |table| ==> table[i].0 != key
    ensures r.Some? ==> exists i :: 0 <= i < |table| && table[i].0 == key && table[i].1 == r.value &&
                                    forall j :: 0 <= j < i ==> table[j].0 != key
  {
    if table == [] then None
    else if table[0].0 == key then Some(table[0].1)
    else
      assert forall i :: 0 <= i < |table[1..]| ==> table[1..][i] == table[i + 1];
      Find(table[1..], key)
  }

  /** find gives the value of the first entry with the key. */
  lemma {:induction false} FindFirst<K, V>(table: seq<(K, V)>, key: K, k: nat)
    requires k < |table| && table[k].0 == key
    requires forall j :: 0 <= j < k ==> table[j].0 != key
    ensures Find(table, key) == Some(table[k].1)
  {
    if k > 0 {
      FindFirst(table[1..], key, k - 1);
    }
  }

  /** `Array.prototype.findIndex` as an option: the first index whose
      element passes p. */
  function FirstIndex<T>(s: seq<T>, p: T -> bool): (r: Option<nat>)
    ensures r.None? <==> forall i :: 0 <= i < |s| ==> !p(s[i])
    ensures r.Some? ==> r.value < |s| && p(s[r.value]) && forall j :: 0 <= j < r.value ==> !p(s[j])
  {
    if s == [] then None
    else if p(s[0]) then Some(0)
    else
      assert forall i :: 0 <= i < |s[1..]| ==> s[1..][i] == s[i + 1];
      match FirstIndex(s[1..], p)
      case None => None
      case Some(k) => Some(k + 1)
  }

  // ---------------------------------------------------------------------
  // String.prototype.localeCompare, by code point

  /** -1, 0 or 1 as a comes before, with or after b in lexicographic
      code-point order. */
  function CompareStrings(a: string, b: string): (r: int)
    ensures -1 <= r <= 1
    ensures r == 0 <==> a == b
  {
    if a == [] then (if b == [] then 0 else -1)
    else if b == [] then 1
    else if a[0] < b[0] then -1
    else if a[0] > b[0] then 1
    else
      assert a == [a[0]] + a[1..] && b == [b[0]] + b[1..];
      CompareStrings(a[1..], b[1..])
  }

  lemma {:induction false} CompareStringsAntisymmetric(a: string, b: string)
    ensures CompareStrings(b, a) == -CompareStrings(a, b)
  {
    if a != [] && b != [] && a[0] == b[0] {
      CompareStringsAntisymmetric(a[1..], b[1..]);
    }
  }

  lemma {:induction false} CompareStringsTransitive(a: string, b: string, c: string)
    requires CompareStrings(a, b) <= 0 && CompareStrings(b, c) <= 0
    ensures CompareStrings(a, c) <= 0
  {
    if a != [] && b != [] && c != [] && a[0] == b[0] && b[0] == c[0] {
      CompareStringsTransitive(a[1..], b[1..], c[1..]);
    }
  }

  // ---------------------------------------------------------------------
  // Array.prototype.sort: a stable sort by a comparator

  /** cmp orders its values totally, ties allowed. */
  ghost predicate TotalPreorder<T(!new)>(cmp: (T, T) -> int)
  {
    && (forall a, b :: cmp(a, b) <= 0 || cmp(b, a) <= 0)
    && (forall a, b, c :: cmp(a, b) <= 0 && cmp(b, c) <= 0 ==> cmp(a, c) <= 0)
  }

  predicate SortedBy<T>(s: seq<T>, cmp: (T, T) -> int)
  {
    forall i, j :: 0 <= i < j < |s| ==> cmp(s[i], s[j]) <= 0
  }

  /** x placed after the last element that does not come after it. */
  function InsertSorted<T>(s: seq<T>, x: T, cmp: (T, T) -> int): (r: seq<T>)
    ensures multiset(r) == multiset(s) + multiset{x}
  {
    if s == [] then [x]
    else if cmp(s[|s| - 1], x) <= 0 then s + [x]
    else
      var init := s[..|s| - 1];
      assert s == init + [s[|s| - 1]];
      InsertSorted(init, x, cmp) + [s[|s| - 1]]
  }

  /** The elements of s one after the other inserted into the sorted
      prefix: an insertion sort, which keeps elements that compare equal in
      their input order. */
  function SortBy<T>(s: seq<T>, cmp: (T, T) -> int): (r: seq<T>)
    ensures multiset(r) == multiset(s)
  {
    if s == [] then []
    else
      assert s == s[..|s| - 1] + [s[|s| - 1]];
      InsertSorted(SortBy(s[..|s| - 1], cmp), s[|s| - 1], cmp)
  }

  lemma {:induction false} InsertSortedSorted<T(!new)>(s: seq<T>, x: T, cmp: (T, T) -> int)
    requires TotalPreorder(cmp) && SortedBy(s, cmp)
    ensures SortedBy(InsertSorted(s, x, cmp), cmp)
  {
    if s != [] {
      if cmp(s[|s| - 1], x) <= 0 {
        AppendAfterLast(s, x, cmp);
      } else {
        var init := s[..|s| - 1];
        assert SortedBy(init, cmp);
        InsertSortedSorted(init, x, cmp);
        InsertBeforeLast(init, s[|s| - 1], x, cmp);
      }
    }
  }

  /** x goes at the end when the last element does not come after it. */
  lemma AppendAfterLast<T(!new)>(s: seq<T>, x: T, cmp: (T, T) -> int)
    requires TotalPreorder(cmp) && SortedBy(s, cmp) && s != [] && cmp(s[|s| - 1], x) <= 0
    ensures SortedBy(s + [x], cmp)
  {
    var r := s + [x];
    forall i, j | 0 <= i < j < |r|
      ensures cmp(r[i], r[j]) <= 0
    {
      if j == |s| && i < |s| - 1 {
        assert cmp(s[i], s[|s| - 1]) <= 0;
      }
    }
  }

  /** Otherwise x goes into the sorted rest, and the last element stays
      last. */
  lemma InsertBeforeLast<T(!new)>(init: seq<T>, last: T, x: T, cmp: (T, T) -> int)
    requires TotalPreorder(cmp) && SortedBy(init + [last], cmp) && cmp(last, x) > 0
    requires SortedBy(InsertSorted(init, x, cmp), cmp)
    ensures SortedBy(InsertSorted(init, x, cmp) + [last], cmp)
  {
    var u := InsertSorted(init, x, cmp);
    assert cmp(x, last) <= 0;
    forall y | y in u
      ensures cmp(y, last) <= 0
    {
      assert y in multiset(u);
      if y != x {
        assert y in multiset(init);
        var k :| 0 <= k < |init| && init[k] == y;
        var w := init + [last];
        assert w[k] == y && w[|init|] == last;
        assert cmp(w[k], w[|init|]) <= 0;
      }
    }
    var r := u + [last];
    forall i, j | 0 <= i < j < |r|
      ensures cmp(r[i], r[j]) <= 0
    {
      if j == |u| {
        assert r[i] in u;
      }
    }
  }

  /** Under a total preorder, the sort orders its result. */
  lemma {:induction false} SortBySorted<T(!new)>(s: seq<T>, cmp: (T, T) -> int)
    requires TotalPreorder(cmp)
    ensures SortedBy(SortBy(s, cmp), cmp)
  {
    if s != [] {
      SortBySorted(s[..|s| - 1], cmp);
      InsertSortedSorted(SortBy(s[..|s| - 1], cmp), s[|s| - 1], cmp);
    }
  }

  /** a and b compare equal both ways round. */
  predicate Tied<T>(a: T, b: T, cmp: (T, T) -> int)
  {
    cmp(a, b) <= 0 && cmp(b, a) <= 0
  }

  /** The elements of s tied with x, in their order in s. */
  function Ties<T>(s: seq<T>, x: T, cmp: (T, T) -> int): seq<T>
  {
    if s == [] then []
    else Ties(s[..|s| - 1], x, cmp) + (if Tied(s[|s| - 1], x, cmp) then [s[|s| - 1]] else [])
  }

  lemma TiesSnoc<T>(s: seq<T>, y: T, x: T, cmp: (T, T) -> int)
    ensures Ties(s + [y], x, cmp) == Ties(s, x, cmp) + (if Tied(y, x, cmp) then [y] else [])
  {
    assert (s + [y])[..|s|] == s;
  }

  /** Inserting z passes over no element tied with z, so the elements tied
      with any x keep their order, with z last among them. */
  lemma {:induction false} InsertSortedTies<T(!new)>(u: seq<T>, z: T, x: T, cmp: (T, T) -> int)
    requires TotalPreorder(cmp)
    ensures Ties(InsertSorted(u, z, cmp), x, cmp) == Ties(u, x, cmp) + (if Tied(z, x, cmp) then [z] else [])
  {
    if u == [] {
      TiesSnoc([], z, x, cmp);
    } else if cmp(u[|u| - 1], z) <= 0 {
      TiesSnoc(u, z, x, cmp);
    } else {
      var init, last := u[..|u| - 1], u[|u| - 1];
      assert u == init + [last];
      var v := InsertSorted(init, z, cmp);
      InsertSortedTies(init, z, x, cmp);
      TiesSnoc(v, last, x, cmp);
      TiesSnoc(init, last, x, cmp);
      // z and last are never both tied with x: by transitivity last would
      // not come after z
      assert !(Tied(z, x, cmp) && Tied(last, x, cmp));
    }
  }

  /** The sort is stable: the elements tied with any x come out in their
      input order. */
  lemma {:induction false} SortByStable<T(!new)>(s: seq<T>, x: T, cmp: (T, T) -> int)
    requires TotalPreorder(cmp)
    ensures Ties(SortBy(s, cmp), x, cmp) == Ties(s, x, cmp)
  {
    if s != [] {
      SortByStable(s[..|s| - 1], x, cmp);
      InsertSortedTies(SortBy(s[..|s| - 1], cmp), s[|s| - 1], x, cmp);
    }
  }

  /** A comparator that finds every pair equal leaves the order as it was. */
  lemma {:induction false} SortByAllEqual<T(!new)>(s: seq<T>, cmp: (T, T) -> int)
    requires forall a, b :: cmp(a, b) == 0
    ensures SortBy(s, cmp) == s
  {
    if s != [] {
      SortByAllEqual(s[..|s| - 1], cmp);
      assert s == s[..|s| - 1] + [s[|s| - 1]];
    }
  }
}
