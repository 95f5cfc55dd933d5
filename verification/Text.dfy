/** Strings as Go compares and cuts them; a character stands for a byte. */
module Text {
  import opened Common

  /** Go's `<` on strings: byte by byte, a proper prefix first. */
  predicate LexLess(a: string, b: string)
  {
    if b == "" then false
    else if a == "" then true
    else a[0] < b[0] || (a[0] == b[0] && LexLess(a[1..], b[1..]))
  }

  predicate HasPrefix(s: string, prefix: string)
  {
    prefix <= s
  }

  predicate HasSuffix(s: string, suffix: string)
  {
    |suffix| <= |s| && s[|s| - |suffix|..] == suffix
  }

  /** The part before the first `c`, or nothing when there is none. */
  function Before(s: string, c: char): (r: Option<string>)
    ensures r.Some? <==> c in s
    ensures r.Some? ==> |r.value| < |s| && s[|r.value|] == c && r.value == s[..|r.value|] && c !in r.value
  {
    if s == "" then None
    else if s[0] == c then
      Some("")
    else
      assert s == [s[0]] + s[1..];
      match Before(s[1..], c)
      case None => None
      case Some(x) => Some([s[0]] + x)
  }

  /** `Before` finds the only split at a `c` with none in front. */
  lemma BeforeSplit(a: string, b: string, c: char)
    requires c !in a
    ensures Before(a + [c] + b, c) == Some(a)
    decreases |a|
  {
    var s := a + [c] + b;
    if a == "" {
      assert s[0] == c;
    } else {
      assert s[0] == a[0] && a[0] in a;
      assert s[1..] == a[1..] + [c] + b;
      assert a == [a[0]] + a[1..];
      BeforeSplit(a[1..], b, c);
    }
  }

  // ---------- the order ----------

  lemma {:induction false} LexIrreflexive(a: string)
    ensures !LexLess(a, a)
    decreases |a|
  {
    if a != "" {
      LexIrreflexive(a[1..]);
    }
  }

  lemma {:induction false} LexTotal(a: string, b: string)
    ensures a == b || LexLess(a, b) || LexLess(b, a)
    decreases |a|
  {
    if a != "" && b != "" && a[0] == b[0] {
      LexTotal(a[1..], b[1..]);
      assert a == [a[0]] + a[1..] && b == [b[0]] + b[1..];
    }
  }

  lemma {:induction false} LexTransitive(a: string, b: string, c: string)
    requires LexLess(a, b) && LexLess(b, c)
    ensures LexLess(a, c)
    decreases |a|
  {
    if a != "" && a[0] == b[0] && b[0] == c[0] {
      LexTransitive(a[1..], b[1..], c[1..]);
    }
  }

  lemma LexAsymmetric(a: string, b: string)
    requires LexLess(a, b)
    ensures !LexLess(b, a) && a != b
  {
    LexIrreflexive(a);
    if LexLess(b, a) {
      LexTransitive(a, b, a);
    }
  }

  /** A common prefix does not matter. */
  lemma {:induction false} LexPrefix(p: string, a: string, b: string)
    ensures LexLess(p + a, p + b) <==> LexLess(a, b)
    decreases |p|
  {
    if p == "" {
      assert p + a == a && p + b == b;
    } else {
      assert (p + a)[1..] == p[1..] + a && (p + b)[1..] == p[1..] + b;
      LexPrefix(p[1..], a, b);
    }
  }

  /** When the fronts differ and are of the same length, what follows does not matter. */
  lemma {:induction false} LexFront(a: string, b: string, x: string, y: string)
    requires |a| == |b| && a != b
    ensures LexLess(a + x, b + y) <==> LexLess(a, b)
    decreases |a|
  {
    assert (a + x)[1..] == a[1..] + x && (b + y)[1..] == b[1..] + y;
    if a[0] == b[0] {
      assert a == [a[0]] + a[1..] && b == [b[0]] + b[1..];
      LexFront(a[1..], b[1..], x, y);
    }
  }

  // ---------- sorting ----------

  ghost predicate LexSorted(s: seq<string>)
  {
    forall i, j :: 0 <= i < j < |s| ==> !LexLess(s[j], s[i])
  }

  function Inserted(x: string, s: seq<string>): seq<string>
  {
    if s == [] then [x]
    else if LexLess(s[|s| - 1], x) then s + [x]
    else Inserted(x, s[..|s| - 1]) + [s[|s| - 1]]
  }

  /** What `sort.Strings` returns. */
  function SortedStrings(s: seq<string>): seq<string>
  {
    if s == [] then [] else Inserted(s[|s| - 1], SortedStrings(s[..|s| - 1]))
  }

  lemma {:induction false} InsertedHolds(x: string, s: seq<string>)
    ensures multiset(Inserted(x, s)) == multiset(s) + multiset{x}
    decreases |s|
  {
    if s != [] {
      InsertedHolds(x, s[..|s| - 1]);
      assert s == s[..|s| - 1] + [s[|s| - 1]];
    }
  }

  lemma AppendSorts(s: seq<string>, x: string)
    requires LexSorted(s) && forall y :: y in s ==> !LexLess(x, y)
    ensures LexSorted(s + [x])
  {
  }

  lemma {:induction false} InsertedSorts(x: string, s: seq<string>)
    requires LexSorted(s)
    ensures LexSorted(Inserted(x, s))
    decreases |s|
  {
    if s != [] {
      var init, last := s[..|s| - 1], s[|s| - 1];
      if LexLess(last, x) {
        forall y | y in s ensures !LexLess(x, y) {
          if LexLess(x, y) {
            LexTransitive(last, x, y);
            LexIrreflexive(last);
          }
        }
        AppendSorts(s, x);
      } else {
        InsertedSorts(x, init);
        InsertedHolds(x, init);
        var t := Inserted(x, init);
        forall y | y in t ensures !LexLess(last, y) {
          assert y in multiset(t);
          assert y == x || y in init;
        }
        AppendSorts(t, last);
      }
    }
  }

  lemma {:induction false} SortedStringsSorts(s: seq<string>)
    ensures LexSorted(SortedStrings(s)) && multiset(SortedStrings(s)) == multiset(s)
    decreases |s|
  {
    if s != [] {
      SortedStringsSorts(s[..|s| - 1]);
      InsertedSorts(s[|s| - 1], SortedStrings(s[..|s| - 1]));
      InsertedHolds(s[|s| - 1], SortedStrings(s[..|s| - 1]));
      assert s == s[..|s| - 1] + [s[|s| - 1]];
    }
  }

  lemma SortedStringsMembers(s: seq<string>)
    ensures |SortedStrings(s)| == |s| && forall x :: x in SortedStrings(s) <==> x in s
  {
    SortedStringsSorts(s);
    var t := SortedStrings(s);
    assert |t| == |multiset(t)| && |s| == |multiset(s)|;
    assert forall x :: x in t <==> x in multiset(t);
    assert forall x :: x in s <==> x in multiset(s);
  }

  // ---------- decimal numbers ----------

  function Digit(d: nat): char
    requires d < 10
  {
    "0123456789"[d]
  }

  /** `%d` of a number that is not negative. */
  function Decimal(n: nat): string
  {
    if n < 10 then [Digit(n)] else Decimal(n / 10) + [Digit(n % 10)]
  }

  /** The number that the first `n` digits of `b` write. */
  function Lead(b: nat, n: nat): nat
    requires n > 0
    decreases b
  {
    if |Decimal(b)| <= n then b else Lead(b / 10, n)
  }

  lemma DigitOrder(a: nat, b: nat)
    requires a < 10 && b < 10
    ensures Digit(a) < Digit(b) <==> a < b
    ensures Digit(a) == Digit(b) <==> a == b
    ensures '-' < Digit(a) && '/' < Digit(a)
  {
    assert forall i :: 0 <= i < 10 ==> "0123456789"[i] as int == 48 + i;
  }

  lemma LexSnoc(a: string, b: string, x: char, y: char)
    requires |a| == |b|
    ensures LexLess(a + [x], b + [y]) <==> LexLess(a, b) || (a == b && x < y)
  {
    if a == b {
      LexPrefix(a, [x], [y]);
      LexIrreflexive(a);
    } else {
      LexFront(a, b, [x], [y]);
    }
  }

  /** On numbers of the same length the text order is the numeric order. */
  lemma {:induction false} DecimalOrder(a: nat, b: nat)
    requires |Decimal(a)| == |Decimal(b)|
    ensures LexLess(Decimal(a), Decimal(b)) <==> a < b
    ensures Decimal(a) == Decimal(b) <==> a == b
    decreases a
  {
    DecimalNotEmpty(a / 10);
    DecimalNotEmpty(b / 10);
    DigitOrder(a % 10, b % 10);
    if a >= 10 && b >= 10 {
      DecimalOrder(a / 10, b / 10);
      LexSnoc(Decimal(a / 10), Decimal(b / 10), Digit(a % 10), Digit(b % 10));
      var p, q, x, y := Decimal(a / 10), Decimal(b / 10), Digit(a % 10), Digit(b % 10);
      assert (p + [x])[..|p|] == p && (q + [y])[..|q|] == q;
      assert (p + [x])[|p|] == x && (q + [y])[|q|] == y;
    } else if a < 10 && b < 10 {
      assert [Digit(a)][1..] == "" && [Digit(b)][1..] == "";
    }
  }

  lemma {:induction false} DecimalNotEmpty(n: nat)
    ensures Decimal(n) != "" && forall c :: c in Decimal(n) ==> '-' < c && '/' < c && c != '/' && c != '-'
    decreases n
  {
    DigitOrder(n % 10, 0);
    if n >= 10 {
      DecimalNotEmpty(n / 10);
    }
  }

  lemma {:induction false} DecimalLonger(a: nat, b: nat)
    requires |Decimal(a)| < |Decimal(b)|
    ensures a < b
    decreases b
  {
    DecimalNotEmpty(a);
    if a >= 10 {
      DecimalLonger(a / 10, b / 10);
    }
  }

  lemma {:induction false} LeadDecimal(b: nat, n: nat)
    requires 0 < n <= |Decimal(b)|
    ensures Decimal(Lead(b, n)) == Decimal(b)[..n]
    decreases b
  {
    if |Decimal(b)| <= n {
      assert Decimal(b)[..n] == Decimal(b);
    } else {
      LeadDecimal(b / 10, n);
      assert Decimal(b)[..n] == Decimal(b / 10)[..n];
    }
  }

  /** The text order of two numbers, each followed by a dash, agrees with the numeric order: the
      smaller is at most what the larger starts with. */
  predicate TextAgrees(a: nat, b: nat)
  {
    var low, high := if a <= b then a else b, if a <= b then b else a;
    |Decimal(low)| > 0 && low <= Lead(high, |Decimal(low)|)
  }

  lemma AgreesBothWays(a: nat, b: nat)
    ensures TextAgrees(a, b) == TextAgrees(b, a)
  {
  }

  /** It always agrees on numbers of the same length. */
  lemma SameLengthAgrees(a: nat, b: nat)
    requires |Decimal(a)| == |Decimal(b)|
    ensures TextAgrees(a, b)
  {
    DecimalNotEmpty(a);
    DecimalNotEmpty(b);
  }

  lemma DashedOrder(a: nat, b: nat, x: string, y: string)
    requires a < b
    ensures LexLess(Decimal(a) + "-" + x, Decimal(b) + "-" + y) <==> TextAgrees(a, b)
    ensures LexLess(Decimal(b) + "-" + y, Decimal(a) + "-" + x) <==> !TextAgrees(a, b)
  {
    var da, db := Decimal(a), Decimal(b);
    if |da| > |db| {
      DecimalLonger(b, a);
    }
    DecimalNotEmpty(a);
    var c := Lead(b, |da|);
    LeadDecimal(b, |da|);
    var tail := db[|da|..] + "-" + y;
    assert db + "-" + y == Decimal(c) + tail;
    assert da + "-" + x == da + ("-" + x);
    DecimalOrder(a, c);
    DecimalOrder(c, a);
    if a != c {
      LexFront(da, Decimal(c), "-" + x, tail);
      LexFront(Decimal(c), da, tail, "-" + x);
    } else {
      LexPrefix(da, "-" + x, tail);
      LexPrefix(da, tail, "-" + x);
      DashBeforeDigit(b, |da|, x, y);
    }
  }

  lemma DashBeforeDigit(b: nat, n: nat, x: string, y: string)
    requires 0 < n <= |Decimal(b)| && Lead(b, n) < b
    ensures LexLess("-" + x, Decimal(b)[n..] + "-" + y) && !LexLess(Decimal(b)[n..] + "-" + y, "-" + x)
  {
    DecimalNotEmpty(b);
    var db := Decimal(b);
    assert n < |db|;
    assert db[n] in db;
    assert (db[n..] + "-" + y)[0] == db[n];
    assert ("-" + x)[0] == '-';
  }
}
