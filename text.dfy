/** String helpers shared by the command builders: Python's `str.join`,
    `str.lower`, `str.replace` on one character, `str(int)`, and substring
    containment, each with the facts the command proofs rely on. */
module Text {

  datatype Option<T> = None | Some(value: T)

  /** `'{}'.format(o)` for a string or None. */
  function Show(o: Option<string>): string
  {
    if o.Some? then o.value else "None"
  }

  /** Python's `sep.join(parts)`. */
  function Join(parts: seq<string>, sep: string): (r: string)
    ensures parts == [] ==> r == ""
    ensures |parts| == 1 ==> r == parts[0]
    ensures parts != [] ==> parts[0] <= r
  {
    if parts == [] then ""
    else if |parts| == 1 then parts[0]
    else parts[0] + sep + Join(parts[1..], sep)
  }

  /** Every part, and every separator between two parts, occurs in the join. */
  lemma {:induction false} JoinContainsParts(parts: seq<string>, sep: string, k: nat)
    requires k < |parts|
    ensures Contains(Join(parts, sep), parts[k])
  {
    var r := Join(parts, sep);
    if |parts| == 1 {
      ContainsSelf(r);
    } else if k == 0 {
      assert parts[0] <= r;
      ContainsPrefix(r, parts[0]);
    } else {
      JoinContainsParts(parts[1..], sep, k - 1);
      ContainsInSuffix(parts[0] + sep, Join(parts[1..], sep), parts[k]);
    }
  }

  // ---- substring containment ------------------------------------------------

  /** `t in s` for Python strings: `t` occurs somewhere in `s`. */
  predicate Contains(s: string, t: string)
  {
    exists i :: 0 <= i <= |s| && t <= s[i..]
  }

  lemma ContainsSelf(s: string)
    ensures Contains(s, s)
  {
    assert s <= s[0..];
  }

  lemma ContainsPrefix(s: string, t: string)
    requires t <= s
    ensures Contains(s, t)
  {
    assert s[0..] == s;
  }

  /** An occurrence in the left operand of a concatenation is one in the whole. */
  lemma ContainsInPrefix(x: string, y: string, t: string)
    requires Contains(x, t)
    ensures Contains(x + y, t)
  {
    var i :| 0 <= i <= |x| && t <= x[i..];
    assert (x + y)[i..] == x[i..] + y;
  }

  /** An occurrence in the right operand of a concatenation is one in the whole. */
  lemma ContainsInSuffix(x: string, y: string, t: string)
    requires Contains(y, t)
    ensures Contains(x + y, t)
  {
    var i :| 0 <= i <= |y| && t <= y[i..];
    assert (x + y)[|x| + i..] == y[i..];
  }

  /** Both words of `a + sep + b` occur in anything that ends with it. */
  lemma ContainsJoined(head: string, a: string, sep: string, b: string)
    ensures Contains(head + (a + sep + b), a) && Contains(head + (a + sep + b), b)
  {
    ContainsSelf(a);
    ContainsInPrefix(a, sep + b, a);
    assert a + sep + b == a + (sep + b);
    ContainsInSuffix(head, a + sep + b, a);
    ContainsSelf(b);
    ContainsInSuffix(a + sep, b, b);
    ContainsInSuffix(head, a + sep + b, b);
  }

  /** `a` is never immediately followed by `b` in `s`. */
  predicate NoPair(s: string, a: char, b: char)
  {
    forall i :: 0 <= i < |s| - 1 ==> !(s[i] == a && s[i + 1] == b)
  }

  /** A string in which the pair `t[k] t[k+1]` never occurs cannot contain `t`. */
  lemma {:induction false} PairBlocksContains(s: string, t: string, k: nat)
    requires k + 1 < |t|
    requires NoPair(s, t[k], t[k + 1])
    ensures !Contains(s, t)
  {
    forall i | 0 <= i <= |s| && |t| <= |s| - i
      ensures s[i..][k] != t[k] || s[i..][k + 1] != t[k + 1]
    {
      assert s[i..][k] == s[i + k] && s[i..][k + 1] == s[i + k + 1];
    }
  }

  /** A string without some character of `t` cannot contain `t`. */
  lemma {:induction false} CharBlocksContains(s: string, t: string, k: nat)
    requires k < |t|
    requires t[k] !in s
    ensures !Contains(s, t)
  {
    forall i | 0 <= i <= |s| && |t| <= |s| - i
      ensures s[i..][k] != t[k]
    {
      assert s[i..][k] in s;
    }
  }

  /** A pair that occurs in neither operand nor across the seam does not occur. */
  lemma NoPairConcat(x: string, y: string, a: char, b: char)
    requires NoPair(x, a, b) && NoPair(y, a, b)
    requires x != [] && y != [] ==> !(x[|x| - 1] == a && y[0] == b)
    ensures NoPair(x + y, a, b)
  {
    var s := x + y;
    forall i | 0 <= i < |s| - 1
      ensures !(s[i] == a && s[i + 1] == b)
    {
      if i + 1 < |x| {
        assert s[i] == x[i] && s[i + 1] == x[i + 1];
      } else if i >= |x| {
        assert s[i] == y[i - |x|] && s[i + 1] == y[i + 1 - |x|];
      }
    }
  }

  /** A string without the character `b` has no pair ending with `b`. */
  lemma AbsentSecondNoPair(s: string, a: char, b: char)
    requires b !in s
    ensures NoPair(s, a, b)
  {
    forall i | 0 <= i < |s| - 1
      ensures !(s[i] == a && s[i + 1] == b)
    {
      assert s[i + 1] in s;
    }
  }

  /** A string without the character `a` has no pair starting with `a`. */
  lemma AbsentCharNoPair(s: string, a: char, b: char)
    requires a !in s
    ensures NoPair(s, a, b)
  {
    forall i | 0 <= i < |s| - 1
      ensures !(s[i] == a && s[i + 1] == b)
    {
      assert s[i] in s;
    }
  }

  // ---- case and character replacement -------------------------------------------

  function LowerChar(c: char): (r: char)
    ensures !('A' <= r <= 'Z')
    ensures !('A' <= c <= 'Z') ==> r == c
  {
    if 'A' <= c <= 'Z' then (c as int - 'A' as int + 'a' as int) as char else c
  }

  /** Python's `s.lower()`, restricted to the ASCII letters. */
  function Lower(s: string): (r: string)
    ensures |r| == |s|
    ensures forall i :: 0 <= i < |s| ==> r[i] == LowerChar(s[i])
  {
    if s == [] then [] else [LowerChar(s[0])] + Lower(s[1..])
  }

  /** Python's `s.replace(from, to)` for one-character `from` and `to`. */
  function ReplaceChar(s: string, from: char, to: char): (r: string)
    ensures |r| == |s|
    ensures forall i :: 0 <= i < |s| ==> r[i] == (if s[i] == from then to else s[i])
  {
    if s == [] then [] else [if s[0] == from then to else s[0]] + ReplaceChar(s[1..], from, to)
  }

  // ---- decimal rendering of integers ----------------------------------------------

  predicate IsDigit(c: char) { '0' <= c <= '9' }

  function DigitChar(d: nat): (c: char)
    requires d < 10
    ensures IsDigit(c)
  {
    ('0' as int + d) as char
  }

  /** `str(n)` for a natural number: its decimal digits, no leading zero. */
  function NatToString(n: nat): (r: string)
    ensures r != []
    ensures forall i :: 0 <= i < |r| ==> IsDigit(r[i])
    ensures |r| > 1 ==> r[0] != '0'
    decreases n
  {
    if n < 10 then [DigitChar(n)] else NatToString(n / 10) + [DigitChar(n % 10)]
  }

  /** `str(i)` for any integer: a minus sign before the digits of `-i` when `i < 0`. */
  function IntToString(i: int): (r: string)
    ensures r != []
    ensures forall k :: 0 <= k < |r| ==> IsDigit(r[k]) || (k == 0 && r[k] == '-')
    ensures (r[0] == '-') == (i < 0)
  {
    if i < 0 then "-" + NatToString(-i) else NatToString(i)
  }

  // ---- first occurrence ---------------------------------------------------------------

  /** Index of the first occurrence of `x` in `xs`. */
  function FirstIndex<T(==)>(xs: seq<T>, x: T): (r: nat)
    requires x in xs
    ensures r < |xs| && xs[r] == x
    ensures forall j :: 0 <= j < r ==> xs[j] != x
  {
    if xs[0] == x then 0 else 1 + FirstIndex(xs[1..], x)
  }

  /** Appending to a list does not move a first occurrence already in it. */
  lemma {:induction false} FirstIndexPrefix<T>(init: seq<T>, last: T, x: T)
    requires x in init
    ensures FirstIndex(init + [last], x) == FirstIndex(init, x)
  {
    if init[0] != x {
      assert (init + [last])[1..] == init[1..] + [last];
      FirstIndexPrefix(init[1..], last, x);
    }
  }

  /** A value new to the list first occurs where it is appended. */
  lemma {:induction false} FirstIndexLast<T>(init: seq<T>, x: T)
    requires x !in init
    ensures FirstIndex(init + [x], x) == |init|
  {
    if init != [] {
      assert (init + [x])[1..] == init[1..] + [x];
      FirstIndexLast(init[1..], x);
    }
  }
}
