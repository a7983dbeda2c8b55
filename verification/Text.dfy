/** Strings as the program uses them: the order of Python's str comparison, decimal printing and '|'-joining. */
module Text {

  /** Strictly before, character by character (Python's `<` on str). */
  predicate Before(a: string, b: string) {
    b != [] && (a == [] || a[0] < b[0] || (a[0] == b[0] && Before(a[1..], b[1..])))
  }

  lemma {:induction false} BeforeTotal(a: string, b: string)
    ensures a == b || Before(a, b) || Before(b, a)
  {
    if a != [] && b != [] && a[0] == b[0] {
      BeforeTotal(a[1..], b[1..]);
      assert a == [a[0]] + a[1..] && b == [b[0]] + b[1..];
    }
  }

  lemma {:induction false} BeforeAsymmetric(a: string, b: string)
    requires Before(a, b)
    ensures a != b && !Before(b, a)
  {
    if a != [] && a[0] == b[0] {
      BeforeAsymmetric(a[1..], b[1..]);
    }
  }

  lemma {:induction false} BeforeTransitive(a: string, b: string, c: string)
    requires Before(a, b) && Before(b, c)
    ensures Before(a, c)
  {
    if a != [] && a[0] == b[0] && b[0] == c[0] {
      BeforeTransitive(a[1..], b[1..], c[1..]);
    }
  }

  /**
   * The order of Python's str by its definition: a is a proper prefix of b, or has the smaller
   * character at the first position where they differ.
   */
  ghost predicate Sooner(a: string, b: string) {
    exists k: nat :: Differ(a, b, k) && (k == |a| || a[k] < b[k])
  }

  /** k is the first position where b goes on differently from a. */
  ghost predicate Differ(a: string, b: string, k: nat) {
    k <= |a| && k < |b| && (forall i :: 0 <= i < k ==> a[i] == b[i]) && (k < |a| ==> a[k] != b[k])
  }

  lemma {:induction false} BeforeIsSooner(a: string, b: string)
    ensures Before(a, b) <==> Sooner(a, b)
  {
    if a == [] || b == [] {
      assert b != [] ==> Differ([], b, 0);
    } else if a[0] != b[0] {
      assert Differ(a, b, 0);
    } else {
      BeforeIsSooner(a[1..], b[1..]);
      SoonerTail(a, b);
    }
  }

  lemma {:induction false} SoonerTail(a: string, b: string)
    requires a != [] && b != [] && a[0] == b[0]
    ensures Sooner(a, b) <==> Sooner(a[1..], b[1..])
  {
    if Sooner(a[1..], b[1..]) {
      var k: nat :| Differ(a[1..], b[1..], k) && (k == |a[1..]| || a[1..][k] < b[1..][k]);
      assert forall i :: 0 < i <= k ==> a[i] == a[1..][i - 1] && b[i] == b[1..][i - 1];
      assert Differ(a, b, k + 1);
    }
    if Sooner(a, b) {
      var k: nat :| Differ(a, b, k) && (k == |a| || a[k] < b[k]);
      assert Differ(a[1..], b[1..], k - 1);
    }
  }

  function Digit(d: nat): char
    requires d < 10
  {
    "0123456789"[d]
  }

  function DigitValue(c: char): nat {
    if '0' <= c <= '9' then c as nat - '0' as nat else 0
  }

  /** str(n) for n >= 0. */
  function NatText(n: nat): string {
    if n < 10 then [Digit(n)] else NatText(n / 10) + [Digit(n % 10)]
  }

  /** str(n). */
  function IntText(n: int): string {
    if n < 0 then "-" + NatText(-n) else NatText(n)
  }

  function NatOf(s: string): nat {
    if s == [] then 0 else 10 * NatOf(s[..|s| - 1]) + DigitValue(s[|s| - 1])
  }

  lemma {:induction false} NatTextReads(n: nat)
    ensures NatOf(NatText(n)) == n
    ensures NatText(n) != [] && (forall i :: 0 <= i < |NatText(n)| ==> '0' <= NatText(n)[i] <= '9')
  {
    var s := NatText(n);
    if n < 10 {
      assert s[..0] == [];
      assert NatOf(s[..0]) == 0;
    } else {
      NatTextReads(n / 10);
      assert s[..|s| - 1] == NatText(n / 10);
    }
  }

  /** It is the usual decimal numeral: no leading zero, and a minus sign for negative numbers. */
  lemma {:induction false} IntTextIsNumeral(n: int)
    ensures n >= 0 ==> NatOf(IntText(n)) == n && (IntText(n)[0] == '0' ==> IntText(n) == "0")
    ensures n < 0 ==> IntText(n) == "-" + IntText(-n)
    ensures IntText(n) != [] && (forall i :: 0 < i < |IntText(n)| ==> '0' <= IntText(n)[i] <= '9')
  {
    NatTextReads(if n < 0 then -n else n);
    if n >= 0 {
      NoLeadingZero(n);
    }
  }

  lemma {:induction false} NoLeadingZero(n: nat)
    ensures NatText(n) != [] && (NatText(n)[0] == '0' ==> n == 0)
    ensures NatText(0) == "0"
  {
    if n >= 10 {
      NoLeadingZero(n / 10);
    }
  }

  predicate NoBar(s: string) {
    '|' !in s
  }

  /** Decimal printing is injective and never prints '|'. */
  lemma {:induction false} IntTextInjective(a: int, b: int)
    ensures NoBar(IntText(a))
    ensures IntText(a) == IntText(b) ==> a == b
  {
    NatTextReads(if a < 0 then -a else a);
    NatTextReads(if b < 0 then -b else b);
    if a < 0 {
      assert IntText(a)[0] == '-' && IntText(a)[1..] == NatText(-a);
    }
    if b < 0 {
      assert IntText(b)[0] == '-' && IntText(b)[1..] == NatText(-b);
    }
    if a >= 0 {
      assert IntText(a)[0] != '-';
    }
    if b >= 0 {
      assert IntText(b)[0] != '-';
    }
  }

  /** '|'.join(parts). */
  function Join(parts: seq<string>): string {
    if parts == [] then "" else if |parts| == 1 then parts[0] else parts[0] + "|" + Join(parts[1..])
  }

  lemma {:induction false} JoinLast(parts: seq<string>, last: string)
    requires parts != []
    ensures Join(parts + [last]) == Join(parts) + "|" + last
  {
    var all := parts + [last];
    if |parts| == 1 {
      assert all[1..] == [last];
    } else {
      JoinLast(parts[1..], last);
      assert all[1..] == parts[1..] + [last];
      assert parts[0] + "|" + (Join(parts[1..]) + "|" + last) == parts[0] + "|" + Join(parts[1..]) + "|" + last;
    }
  }

  /** The first '|' splits a text in one way only. */
  lemma {:induction false} SplitFirst(a: string, x: string, b: string, y: string)
    requires a + "|" + x == b + "|" + y
    requires NoBar(a) && NoBar(b)
    ensures a == b && x == y
  {
    var s := a + "|" + x;
    assert s[|a|] == '|' && s[|b|] == '|';
    assert forall i :: 0 <= i < |a| ==> s[i] == a[i];
    assert forall i :: 0 <= i < |b| ==> s[i] == b[i];
    assert |a| == |b|;
    assert a == s[..|a|] && b == s[..|b|];
    assert x == s[|a| + 1..] && y == s[|b| + 1..];
  }

  /** The last '|' splits a text in one way only. */
  lemma {:induction false} SplitLast(x: string, a: string, y: string, b: string)
    requires x + "|" + a == y + "|" + b
    requires NoBar(a) && NoBar(b)
    ensures a == b && x == y
  {
    var s := x + "|" + a;
    assert s[|x|] == '|' && s[|y|] == '|';
    assert forall i :: |x| < i < |s| ==> s[i] == a[i - |x| - 1];
    assert forall i :: |y| < i < |s| ==> s[i] == b[i - |y| - 1];
    assert |x| == |y|;
    assert x == s[..|x|] && y == s[..|y|];
    assert a == s[|x| + 1..] && b == s[|y| + 1..];
  }
}
