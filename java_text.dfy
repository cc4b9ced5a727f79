/** The few java.lang.String and java.lang.Integer operations the record parser
    relies on, with Java's semantics written out: trim, indexOf, split with a
    literal separator, Integer.parseInt and Integer.toString. */
module JavaText {

  datatype Option<T> = None | Some(value: T)

  // ---------------------------------------------------------------- trim

  /** String.trim() removes every leading and trailing character whose code is at most U+0020. */
  predicate IsTrimmed(c: char) { c <= ' ' }

  function TrimStart(s: string): (r: string)
    ensures |r| <= |s|
  {
    if s != [] && IsTrimmed(s[0]) then TrimStart(s[1..]) else s
  }

  function TrimEnd(s: string): (r: string)
    ensures |r| <= |s|
  {
    if s != [] && IsTrimmed(s[|s| - 1]) then TrimEnd(s[..|s| - 1]) else s
  }

  /** String.trim(). */
  function Trim(s: string): string
  {
    TrimEnd(TrimStart(s))
  }

  /** TrimStart keeps a suffix that does not begin with a trimmable character, and drops only
      trimmable ones. */
  lemma {:induction false} TrimStartShape(s: string)
    ensures var r := TrimStart(s);
      && r == s[|s| - |r|..]
      && (r == [] || !IsTrimmed(r[0]))
      && forall i :: 0 <= i < |s| - |r| ==> IsTrimmed(s[i])
  {
    if s != [] && IsTrimmed(s[0]) {
      TrimStartShape(s[1..]);
    }
  }

  /** TrimEnd keeps a prefix that does not end with a trimmable character, and drops only
      trimmable ones. */
  lemma {:induction false} TrimEndShape(s: string)
    ensures var r := TrimEnd(s);
      && r == s[..|r|]
      && (r == [] || !IsTrimmed(r[|r| - 1]))
      && forall i :: |r| <= i < |s| ==> IsTrimmed(s[i])
  {
    if s != [] && IsTrimmed(s[|s| - 1]) {
      TrimEndShape(s[..|s| - 1]);
    }
  }

  /** A string that begins and ends with a visible character is its own trim. */
  lemma TrimKeeps(s: string)
    requires s != [] && !IsTrimmed(s[0]) && !IsTrimmed(s[|s| - 1])
    ensures Trim(s) == s
  {
    assert TrimStart(s) == s;
    assert TrimEnd(s) == s;
  }

  /** Trim drops only trimmable characters at the ends and leaves none there. */
  lemma TrimShape(s: string)
    ensures var t := Trim(s);
      && (t == [] || (!IsTrimmed(t[0]) && !IsTrimmed(t[|t| - 1])))
      && (t == [] <==> forall i :: 0 <= i < |s| ==> IsTrimmed(s[i]))
  {
    var a := TrimStart(s);
    var t := TrimEnd(a);
    TrimStartShape(s);
    TrimEndShape(a);
    if t == [] {
      assert a == [];
    } else {
      assert t[0] == a[0];
    }
  }

  // ---------------------------------------------------------------- indexOf

  /** The first position of c in s, or -1: String.indexOf(char) on strings, and the
      first-match search over an array of names. */
  function IndexOf<T(==)>(s: seq<T>, c: T): (r: int)
    ensures -1 <= r < |s|
    ensures r == -1 <==> c !in s
    ensures r >= 0 ==> s[r] == c && c !in s[..r]
  {
    if s == [] then -1
    else if s[0] == c then 0
    else
      var k := IndexOf(s[1..], c);
      assert s[1..][..(if k < 0 then 0 else k)] == s[1..(if k < 0 then 1 else k + 1)];
      if k < 0 then -1 else k + 1
  }

  /** The first c in a + [c] + b sits right after a when a holds no c. */
  lemma IndexOfAfter<T>(a: seq<T>, c: T, b: seq<T>)
    requires c !in a
    ensures IndexOf(a + [c] + b, c) == |a|
  {
    var s := a + [c] + b;
    assert s[|a|] == c;
    assert s[..|a|] == a;
  }

  /** The suffix from 0 is the whole sequence. */
  lemma SuffixAll<T>(s: seq<T>)
    ensures s[0..] == s
  {
  }

  /** Dropping a one-element prefix. */
  lemma DropFirst<T>(a: seq<T>, b: seq<T>)
    requires |a| == 1
    ensures (a + b)[1..] == b
  {
  }

  /** A slice inside the left operand of a concatenation. */
  lemma SliceLeft<T>(a: seq<T>, b: seq<T>, i: nat, j: nat)
    requires i <= j <= |a|
    ensures (a + b)[i..j] == a[i..j]
  {
  }

  /** An index into the third of four concatenated sequences. */
  lemma IndexThird<T>(all: seq<T>, a: seq<T>, b: seq<T>, c: seq<T>, d: seq<T>, k: nat, x: T)
    requires all == a + b + c + d && k < |c| && c[k] == x
    ensures all[|a| + |b| + k] == x
  {
  }

  /** Prepending an empty sequence changes nothing. */
  lemma PrependEmpty<T>(b: seq<T>)
    ensures [] + b == b
  {
  }

  /** Appending an empty sequence changes nothing. */
  lemma AppendEmpty<T>(a: seq<T>, b: seq<T>)
    requires b == []
    ensures a + b == a
  {
  }

  /** Splitting a nonempty b into its head and tail and appending both to a gives a + b. */
  lemma AppendHead<T>(a: seq<T>, b: seq<T>)
    requires b != []
    ensures a + [b[0]] + b[1..] == a + b
  {
  }

  /** Dropping the head of a nonempty a in front of b. */
  lemma TailAppend<T>(a: seq<T>, b: seq<T>)
    requires a != []
    ensures (a + b)[1..] == a[1..] + b
  {
  }

  /** Concatenation is associative. */
  lemma AppendAssoc<T>(a: seq<T>, b: seq<T>, c: seq<T>)
    ensures (a + b) + c == a + (b + c)
  {
  }

  /** The suffix of s from k starts with s[k] and continues with the suffix from k + 1. */
  lemma SuffixHead<T>(s: seq<T>, k: nat)
    requires k < |s|
    ensures s[k..][0] == s[k] && s[k..][1..] == s[k + 1..]
  {
  }

  /** The first c in s is at i when s[i] is c and no c comes before it. */
  lemma IndexOfFirst<T>(s: seq<T>, c: T, i: nat)
    requires i < |s| && s[i] == c && c !in s[..i]
    ensures IndexOf(s, c) == i
  {
  }

  /** There is an occurrence of d in s starting at position i. */
  predicate OccursAt(s: string, d: string, i: int)
  {
    0 <= i && i + |d| <= |s| && s[i..i + |d|] == d
  }

  /** An occurrence past the first character is an occurrence in the rest of the string. */
  lemma OccursShift(s: string, d: string, i: int)
    requires s != [] && 1 <= i
    ensures OccursAt(s, d, i) <==> OccursAt(s[1..], d, i - 1)
  {
    if i + |d| <= |s| {
      var u, v := s[i..i + |d|], s[1..][i - 1..i - 1 + |d|];
      assert |u| == |v|;
      forall j | 0 <= j < |u| ensures u[j] == v[j] {
        assert u[j] == s[i + j];
        assert v[j] == s[1..][i - 1 + j];
      }
      assert u == v;
    }
  }

  /** String.indexOf(String): the position of the first occurrence of d, or -1. */
  function Find(s: string, d: string): (r: int)
    requires d != []
    ensures r == -1 || OccursAt(s, d, r)
    ensures forall i :: 0 <= i && (r == -1 || i < r) ==> !OccursAt(s, d, i)
  {
    if |s| < |d| then -1
    else if s[..|d|] == d then 0
    else
      var k := Find(s[1..], d);
      assert forall i :: 1 <= i ==> (OccursAt(s, d, i) <==> OccursAt(s[1..], d, i - 1)) by {
        forall i | 1 <= i ensures OccursAt(s, d, i) <==> OccursAt(s[1..], d, i - 1) {
          OccursShift(s, d, i);
        }
      }
      assert !OccursAt(s, d, 0);
      if k < 0 then -1 else k + 1
  }

  // ---------------------------------------------------------------- split

  /** The pieces of s between successive left-to-right occurrences of d, empty pieces included. */
  function Pieces(s: string, d: string): (r: seq<string>)
    requires d != []
    ensures |r| >= 1
    decreases |s|
  {
    var i := Find(s, d);
    if i < 0 then [s] else [s[..i]] + Pieces(s[i + |d|..], d)
  }

  /** Drops the empty strings at the end of a list, as String.split does. */
  function DropTrailingEmpty(parts: seq<string>): (r: seq<string>)
    ensures |r| <= |parts| && r == parts[..|r|]
    ensures r == [] || r[|r| - 1] != []
    ensures forall i :: |r| <= i < |parts| ==> parts[i] == []
  {
    if parts != [] && parts[|parts| - 1] == [] then DropTrailingEmpty(parts[..|parts| - 1]) else parts
  }

  /** String.split(d) for a separator d without regular-expression meta-characters: a string
      without d splits into itself alone; otherwise into its pieces less the trailing empty ones. */
  function Split(s: string, d: string): (r: seq<string>)
    requires d != []
  {
    if Find(s, d) < 0 then [s] else DropTrailingEmpty(Pieces(s, d))
  }

  /** The separators the parser uses cannot overlap a neighbouring copy of themselves. */
  predicate NonOverlapping(d: string)
  {
    |d| == 1 || (|d| == 2 && d[0] != d[1])
  }

  /** Glues the parts back together with d between successive parts. */
  function Join(parts: seq<string>, d: string): string
    requires parts != []
  {
    if |parts| == 1 then parts[0] else parts[0] + d + Join(parts[1..], d)
  }

  /** The first occurrence of d in p + d + rest is the separator right after p. */
  lemma {:induction false} FindAfter(p: string, d: string, rest: string)
    requires d != [] && NonOverlapping(d) && Find(p, d) < 0
    ensures Find(p + d + rest, d) == |p|
    decreases |p|
  {
    var s := p + d + rest;
    if p == [] {
      assert s[..|d|] == d;
    } else {
      if |p| >= |d| {
        assert s[..|d|] == p[..|d|];
        assert !OccursAt(p, d, 0);
      } else {
        assert |p| == 1 && |d| == 2;
        assert s[..|d|] == [p[0], d[0]];
      }
      assert s[..|d|] != d;
      FindAfter(p[1..], d, rest);
      assert s[1..] == p[1..] + d + rest;
    }
  }

  /** Splitting the joined parts finds the parts again, when no part contains d. */
  lemma {:induction false} PiecesJoin(parts: seq<string>, d: string)
    requires d != [] && NonOverlapping(d) && parts != []
    requires forall i :: 0 <= i < |parts| ==> Find(parts[i], d) < 0
    ensures Pieces(Join(parts, d), d) == parts
    decreases |parts|
  {
    if |parts| > 1 {
      var rest := Join(parts[1..], d);
      FindAfter(parts[0], d, rest);
      var s := parts[0] + d + rest;
      assert s[..|parts[0]|] == parts[0];
      assert s[|parts[0]| + |d|..] == rest;
      PiecesJoin(parts[1..], d);
    }
  }

  /** String.split inverts Join when no part contains the separator and the last part is not
      empty; a single part is returned unchanged even when it is empty. */
  lemma SplitJoin(parts: seq<string>, d: string)
    requires d != [] && NonOverlapping(d) && parts != []
    requires forall i :: 0 <= i < |parts| ==> Find(parts[i], d) < 0
    requires |parts| == 1 || parts[|parts| - 1] != []
    ensures Split(Join(parts, d), d) == parts
  {
    PiecesJoin(parts, d);
    if |parts| > 1 {
      FindAfter(parts[0], d, Join(parts[1..], d));
    }
  }

  /** Two parts free of d, the second not empty, split apart again. */
  lemma SplitTwo(a: string, b: string, d: string)
    requires d != [] && NonOverlapping(d) && Find(a, d) < 0 && Find(b, d) < 0 && b != []
    ensures Split(a + d + b, d) == [a, b]
  {
    SplitJoin([a, b], d);
    assert Join([a, b], d) == a + d + b;
  }

  /** Three parts free of d, the last not empty, split apart again. */
  lemma SplitThree(a: string, b: string, c: string, d: string)
    requires d != [] && NonOverlapping(d) && Find(a, d) < 0 && Find(b, d) < 0 && Find(c, d) < 0
    requires c != []
    ensures Split(a + d + b + d + c, d) == [a, b, c]
  {
    SplitJoin([a, b, c], d);
    JoinThree(a, b, c, d);
  }

  lemma JoinThree(a: string, b: string, c: string, d: string)
    ensures Join([a, b, c], d) == a + d + b + d + c
  {
    assert [a, b, c][1..] == [b, c];
    assert Join([b, c], d) == b + d + c;
    assert a + d + (b + d + c) == a + d + b + d + c;
  }

  /** Splitting k + d + v, where k holds no d: k first, then what v's pieces contribute. */
  lemma SplitAfterKey(k: string, d: string, v: string)
    requires d != [] && NonOverlapping(d) && Find(k, d) < 0
    ensures var r := Split(k + d + v, d);
      && r == DropTrailingEmpty([k] + Pieces(v, d))
      && (|r| >= 2 <==> DropTrailingEmpty(Pieces(v, d)) != [])
      && (|r| >= 2 ==> r[1] == Pieces(v, d)[0])
  {
    var s := k + d + v;
    FindAfter(k, d, v);
    assert s[..|k|] == k;
    assert s[|k| + |d|..] == v;
    var ps := Pieces(v, d);
    DropTrailingCons(k, ps);
  }

  lemma {:induction false} DropTrailingCons(a: string, xs: seq<string>)
    ensures DropTrailingEmpty([a] + xs) ==
      (if DropTrailingEmpty(xs) == [] then DropTrailingEmpty([a]) else [a] + DropTrailingEmpty(xs))
    decreases |xs|
  {
    var s := [a] + xs;
    if xs == [] {
      assert s == [a];
    } else if xs[|xs| - 1] == [] {
      var ys := xs[..|xs| - 1];
      assert s[..|s| - 1] == [a] + ys;
      assert DropTrailingEmpty(s) == DropTrailingEmpty([a] + ys);
      assert DropTrailingEmpty(xs) == DropTrailingEmpty(ys);
      DropTrailingCons(a, ys);
    } else {
      assert s[|s| - 1] == xs[|xs| - 1];
      assert DropTrailingEmpty(s) == s;
      assert DropTrailingEmpty(xs) == xs;
    }
  }

  // ---------------------------------------------------------------- integers

  /** The range of a Java int. */
  const IntMin: int := -0x8000_0000
  const IntMax: int := 0x7fff_ffff

  predicate IsInt32(n: int) { IntMin <= n <= IntMax }

  predicate IsDigit(c: char) { '0' <= c <= '9' }

  predicate AllDigits(s: string) { forall i :: 0 <= i < |s| ==> IsDigit(s[i]) }

  /** The value of a string of decimal digits, leading zeros allowed. */
  function DigitsValue(s: string): nat
    requires AllDigits(s)
  {
    if s == [] then 0 else DigitsValue(s[..|s| - 1]) * 10 + (s[|s| - 1] - '0') as int
  }

  /** Integer.parseInt(s) on ASCII text: an optional sign, then at least one digit '0'-'9', and
      the value must fit a Java int; None stands for NumberFormatException. The other Unicode
      decimal digits Java also accepts are not modelled and read as None here. */
  function ParseInt(s: string): (r: Option<int>)
    ensures r.Some? ==> IsInt32(r.value)
    ensures r.Some? ==> s != [] && (IsDigit(s[0]) || s[0] == '-' || s[0] == '+')
    ensures r.Some? ==> forall i :: 1 <= i < |s| ==> IsDigit(s[i])
  {
    if s == [] then None
    else
      var digits := if s[0] == '-' || s[0] == '+' then s[1..] else s;
      if digits == [] || !AllDigits(digits) then None
      else
        var v: int := if s[0] == '-' then 0 - DigitsValue(digits) else DigitsValue(digits);
        if IsInt32(v) then Some(v) else None
  }

  function DigitChar(d: nat): char
    requires d < 10
  {
    ('0' as int + d) as char
  }

  /** The decimal digits of n without leading zeros. */
  function ShowNat(n: nat): (r: string)
    ensures r != [] && AllDigits(r)
  {
    if n < 10 then [DigitChar(n)] else ShowNat(n / 10) + [DigitChar(n % 10)]
  }

  /** Integer.toString(n). */
  function ShowInt(n: int): (r: string)
    ensures r != [] && (IsDigit(r[0]) || r[0] == '-') && IsDigit(r[|r| - 1])
    ensures forall i :: 0 <= i < |r| ==> IsDigit(r[i]) || (i == 0 && r[0] == '-')
  {
    if n < 0 then "-" + ShowNat(-n) else ShowNat(n)
  }

  lemma {:induction false} ShowNatValue(n: nat)
    ensures DigitsValue(ShowNat(n)) == n
  {
    if n >= 10 {
      ShowNatValue(n / 10);
      var s := ShowNat(n);
      assert s[..|s| - 1] == ShowNat(n / 10);
    }
  }

  /** Integer.parseInt reads back what Integer.toString writes. */
  lemma ParseShowInt(n: int)
    requires IsInt32(n)
    ensures ParseInt(ShowInt(n)) == Some(n)
  {
    if n < 0 {
      ShowNatValue(-n);
      DropFirst("-", ShowNat(-n));
    } else {
      ShowNatValue(n);
    }
  }

  /** A string in which a character of d never appears holds no occurrence of d. */
  lemma FindAbsent(s: string, d: string, k: nat)
    requires d != [] && k < |d| && d[k] !in s
    ensures Find(s, d) < 0
  {
  }

  /** Integer.toString writes only digits and a leading minus sign. */
  lemma ShowIntAvoids(n: int, c: char)
    requires !IsDigit(c) && c != '-'
    ensures c !in ShowInt(n)
  {
  }
}
