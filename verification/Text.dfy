/** Byte strings shared by the models: concatenation, searching, and Go's `%d` rendering of integers.
    A `char` stands for one byte of a stream. */
module Text {

  datatype Option<+T> = None | Some(value: T)

  /** The bytes of a list of writes, in order. */
  function Concat(parts: seq<string>): string {
    if parts == [] then "" else parts[0] + Concat(parts[1..])
  }

  lemma {:induction false} ConcatAppend(a: seq<string>, b: seq<string>)
    ensures Concat(a + b) == Concat(a) + Concat(b)
  {
    if a == [] {
      assert a + b == b;
    } else {
      assert (a + b)[1..] == a[1..] + b;
      ConcatAppend(a[1..], b);
    }
  }

  lemma ConcatOne(x: string)
    ensures Concat([x]) == x
  {
    assert Concat([x]) == x + Concat([]);
  }

  /** `strings.Join` */
  function Join(parts: seq<string>, sep: string): string {
    if |parts| == 0 then "" else if |parts| == 1 then parts[0] else parts[0] + sep + Join(parts[1..], sep)
  }

  /** The position of the first `c` in `s`, or `|s|` when there is none. */
  function IndexOf(s: string, c: char): (i: nat)
    ensures i <= |s|
    ensures forall k :: 0 <= k < i ==> s[k] != c
    ensures i < |s| ==> s[i] == c
  {
    if s == "" || s[0] == c then 0 else 1 + IndexOf(s[1..], c)
  }

  lemma IndexOfPrefix(a: string, b: string, c: char)
    requires IndexOf(a, c) < |a|
    ensures IndexOf(a + b, c) == IndexOf(a, c)
  {
    assert forall k :: 0 <= k < |a| ==> (a + b)[k] == a[k];
    var i, k := IndexOf(a, c), IndexOf(a + b, c);
    assert (a + b)[i] == c;
  }

  lemma IndexOfNone(a: string, b: string, c: char)
    requires forall k :: 0 <= k < |a| ==> a[k] != c
    requires b == "" || b[0] == c
    ensures IndexOf(a + b, c) == |a|
  {
    assert forall k :: 0 <= k < |a| ==> (a + b)[k] == a[k];
    assert b != "" ==> (a + b)[|a|] == c;
  }

  lemma CutConcat(a: string, b: string, i: nat)
    requires i <= |a|
    ensures (a + b)[..i] == a[..i] && (a + b)[i..] == a[i..] + b
  {}

  predicate EndsWith(s: string, c: char) {
    s != "" && s[|s| - 1] == c
  }

  predicate HasPrefix(s: string, p: string) {
    |p| <= |s| && forall k :: 0 <= k < |p| ==> s[k] == p[k]
  }

  /** What `%d` prints for a non-negative number. */
  function Digits(n: nat): (s: string)
    ensures s != ""
    ensures forall i :: 0 <= i < |s| ==> '0' <= s[i] <= '9'
  {
    if n < 10 then [('0' as int + n) as char]
    else Digits(n / 10) + [('0' as int + n % 10) as char]
  }

  /** What `%d` prints for an integer. */
  function Itoa(n: int): (s: string)
    ensures s != ""
    ensures forall i :: 0 <= i < |s| ==> '0' <= s[i] <= '9' || (i == 0 && s[i] == '-')
  {
    if n < 0 then "-" + Digits(-n) else Digits(n)
  }

  /** The number written by a string of decimal digits. */
  function ValueOf(s: string): int {
    if s == "" then 0 else 10 * ValueOf(s[..|s| - 1]) + (s[|s| - 1] as int - '0' as int)
  }

  lemma {:induction false} ValueOfDigits(n: nat)
    ensures ValueOf(Digits(n)) == n
  {
    if n >= 10 {
      ValueOfDigits(n / 10);
      var s := Digits(n);
      assert s[..|s| - 1] == Digits(n / 10);
    }
  }

  lemma DigitsInjective(a: nat, b: nat)
    requires Digits(a) == Digits(b)
    ensures a == b
  {
    ValueOfDigits(a);
    ValueOfDigits(b);
  }

  /** Different integers are printed differently. */
  lemma ItoaInjective(a: int, b: int)
    requires Itoa(a) == Itoa(b)
    ensures a == b
  {
    var s := Itoa(a);
    if s[0] == '-' {
      DigitsInjective(-a, -b) by {
        assert s == "-" + Digits(-a) == "-" + Digits(-b);
        assert s[1..] == Digits(-a) && s[1..] == Digits(-b);
      }
    } else {
      DigitsInjective(a, b);
    }
  }

  /** A separator that occurs in neither left part determines both parts. */
  lemma SplitUnique(a: string, b: string, x: string, y: string, sep: char)
    requires sep !in a && sep !in x
    requires a + [sep] + b == x + [sep] + y
    ensures a == x && b == y
  {
    var s := a + [sep] + b;
    var t := x + [sep] + y;
    assert s[|a|] == sep && t[|x|] == sep;
    assert forall k :: 0 <= k < |a| ==> s[k] == a[k];
    assert forall k :: 0 <= k < |x| ==> t[k] == x[k];
    assert |a| == |x|;
    assert s[..|a|] == a && t[..|a|] == x;
    assert s[|a| + 1..] == b && t[|a| + 1..] == y;
  }

  lemma SamePrefix(base: string, a: string, b: string)
    ensures HasPrefix(base + a, base + b) <==> HasPrefix(a, b)
  {
    var n := |base|;
    if HasPrefix(base + a, base + b) {
      forall k | 0 <= k < |b| ensures a[k] == b[k] {
        assert (base + a)[n + k] == a[k] && (base + b)[n + k] == b[k];
      }
    }
  }

  /** A part that ends with a separator is a prefix only of what begins with that very part. */
  lemma PrefixUpTo(a: string, rest: string, b: string, sep: char)
    requires sep !in a && sep !in b
    ensures HasPrefix(a + [sep] + rest, b + [sep]) <==> a == b
  {
    var s, p := a + [sep] + rest, b + [sep];
    assert s[|a|] == sep && p[|b|] == sep;
    assert forall k :: 0 <= k < |a| ==> s[k] == a[k];
    assert forall k :: 0 <= k < |b| ==> p[k] == b[k];
    if HasPrefix(s, p) {
      assert |a| == |b|;
    }
  }
}
