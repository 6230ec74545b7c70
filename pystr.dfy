/**
 * The Python string operations the core relies on, with the behaviour Python
 * gives them: slicing clamps its bounds, `find`/`rfind` answer -1 when the
 * character is absent, `split` keeps empty pieces, `strip` removes whitespace
 * at both ends, and `c * n` is empty for n <= 0.
 */
module PyStr {

  function Min(a: int, b: int): int { if a <= b then a else b }

  function Max(a: int, b: int): int { if a <= b then b else a }

  /** `s[i:j]` for non-negative bounds. */
  function Slice(s: string, i: nat, j: nat): (r: string)
    ensures |r| == Max(0, Min(j, |s|) - Min(i, |s|))
    ensures forall k :: 0 <= k < |r| ==> r[k] == s[i + k]
    ensures i <= j <= |s| ==> r == s[i..j]
  {
    var a := Min(i, |s|);
    var b := Min(j, |s|);
    if b <= a then "" else s[a..b]
  }

  /** `s.find(c)`: the first index holding `c`, or -1. */
  function Find(s: string, c: char): (r: int)
    ensures -1 <= r < |s|
    ensures r == -1 <==> c !in s
    ensures r >= 0 ==> s[r] == c && c !in s[..r]
  {
    if |s| == 0 then -1
    else if s[0] == c then 0
    else
      var k := Find(s[1..], c);
      if k == -1 then -1 else k + 1
  }

  /** `s.rfind(c)`: the last index holding `c`, or -1. */
  function RFind(s: string, c: char): (r: int)
    ensures -1 <= r < |s|
    ensures r == -1 <==> c !in s
    ensures r >= 0 ==> s[r] == c && c !in s[r + 1..]
  {
    if |s| == 0 then -1
    else if s[|s| - 1] == c then |s| - 1
    else
      var k := RFind(s[..|s| - 1], c);
      assert c !in s[..|s| - 1] ==> c !in s by {
        assert s == s[..|s| - 1] + [s[|s| - 1]];
      }
      k
  }

  /** `sep.join(parts)`. */
  function Join(parts: seq<string>, sep: string): string
  {
    if |parts| == 0 then ""
    else if |parts| == 1 then parts[0]
    else parts[0] + sep + Join(parts[1..], sep)
  }

  /** Appending a part to a non-empty list adds the separator and the part at the end. */
  lemma {:induction false} JoinSnoc(parts: seq<string>, last: string, sep: string)
    requires |parts| > 0
    ensures Join(parts + [last], sep) == Join(parts, sep) + sep + last
  {
    if |parts| == 1 {
      assert (parts + [last])[1..] == [last];
    } else {
      assert (parts + [last])[1..] == parts[1..] + [last];
      JoinSnoc(parts[1..], last, sep);
    }
  }

  /** Joining two non-empty lists is joining each and putting the separator between. */
  lemma {:induction false} JoinAppend(a: seq<string>, b: seq<string>, sep: string)
    requires |a| > 0 && |b| > 0
    ensures Join(a + b, sep) == Join(a, sep) + sep + Join(b, sep)
  {
    if |a| == 1 {
      assert (a + b)[1..] == b;
    } else {
      assert (a + b)[1..] == a[1..] + b;
      JoinAppend(a[1..], b, sep);
    }
  }

  /** `s.count(c)` for one character. */
  function Count(s: string, c: char): nat
  {
    if s == [] then 0 else Count(s[..|s| - 1], c) + if s[|s| - 1] == c then 1 else 0
  }

  /** Counting distributes over concatenation. */
  lemma {:induction false} CountAppend(a: string, b: string, c: char)
    ensures Count(a + b, c) == Count(a, c) + Count(b, c)
  {
    if b != [] {
      assert (a + b)[..|a + b| - 1] == a + b[..|b| - 1];
      CountAppend(a, b[..|b| - 1], c);
    } else {
      assert a + b == a;
    }
  }

  /** A character that does not occur is counted zero times. */
  lemma {:induction false} CountAbsent(s: string, c: char)
    requires c !in s
    ensures Count(s, c) == 0
  {
    if s != [] {
      assert c !in s[..|s| - 1];
      CountAbsent(s[..|s| - 1], c);
    }
  }

  /** `s.split(c)` for a one-character separator: empty pieces are kept. */
  function Split(s: string, c: char): (r: seq<string>)
    ensures |r| >= 1
    decreases |s|
  {
    var k := Find(s, c);
    if k == -1 then [s]
    else [s[..k]] + Split(s[k + 1..], c)
  }

  /** The pieces hold no separator, and joining them with it gives back the string. */
  lemma {:induction false} SplitParts(s: string, c: char)
    ensures var r := Split(s, c);
      && (forall k :: 0 <= k < |r| ==> c !in r[k])
      && Join(r, [c]) == s
    decreases |s|
  {
    var k := Find(s, c);
    if k != -1 {
      var rest := Split(s[k + 1..], c);
      SplitParts(s[k + 1..], c);
      assert ([s[..k]] + rest)[1..] == rest;
      assert s == s[..k] + [c] + s[k + 1..];
    }
  }

  /** Splitting undoes joining, as long as no part holds the separator. */
  lemma {:induction false} SplitJoin(parts: seq<string>, c: char)
    requires |parts| >= 1
    requires forall k :: 0 <= k < |parts| ==> c !in parts[k]
    ensures Split(Join(parts, [c]), c) == parts
  {
    if |parts| == 1 {
      assert Join(parts, [c]) == parts[0];
      assert Find(parts[0], c) == -1;
    } else {
      var p := parts[0];
      var rest := Join(parts[1..], [c]);
      var s := p + [c] + rest;
      assert Join(parts, [c]) == s;
      FindAfterPrefix(p, c, rest);
      assert s[|p| + 1..] == rest;
      assert s[..|p|] == p;
      assert Split(s, c) == [s[..|p|]] + Split(s[|p| + 1..], c);
      SplitJoin(parts[1..], c);
      assert [p] + parts[1..] == parts;
    }
  }

  /** The first separator after a separator-free prefix is found right after it. */
  lemma FindAfterPrefix(prefix: string, c: char, rest: string)
    requires c !in prefix
    ensures Find(prefix + [c] + rest, c) == |prefix|
  {
    var s := prefix + [c] + rest;
    assert s[|prefix|] == c;
    assert s[..|prefix|] == prefix;
  }

  /** The whitespace `str.strip()` removes, restricted to ASCII. */
  predicate IsSpace(ch: char)
  {
    '\t' <= ch <= '\r' || '\U{1C}' <= ch <= ' '
  }

  /** Where `s.strip()` begins: the number of leading whitespace characters. */
  function StripStart(s: string): (a: nat)
    ensures a <= |s|
    ensures forall k :: 0 <= k < a ==> IsSpace(s[k])
    ensures a < |s| ==> !IsSpace(s[a])
  {
    if |s| == 0 || !IsSpace(s[0]) then 0 else 1 + StripStart(s[1..])
  }

  /** Where `s.strip()` ends: the length without trailing whitespace. */
  function StripEnd(s: string): (b: nat)
    ensures b <= |s|
    ensures forall k :: b <= k < |s| ==> IsSpace(s[k])
    ensures b > 0 ==> !IsSpace(s[b - 1])
  {
    if |s| == 0 || !IsSpace(s[|s| - 1]) then |s| else StripEnd(s[..|s| - 1])
  }

  /** `s.strip()`. */
  function Strip(s: string): (r: string)
    ensures r == [] || (!IsSpace(r[0]) && !IsSpace(r[|r| - 1]))
    ensures StripStart(s) <= StripEnd(s) ==> r == s[StripStart(s)..StripEnd(s)]
    ensures StripEnd(s) < StripStart(s) ==> r == [] && forall k :: 0 <= k < |s| ==> IsSpace(s[k])
  {
    var a := StripStart(s);
    var b := StripEnd(s);
    if b <= a then "" else s[a..b]
  }

  /** A string with no whitespace at either end is left as it is by `strip()`. */
  lemma StripUnchanged(s: string)
    requires s == [] || (!IsSpace(s[0]) && !IsSpace(s[|s| - 1]))
    ensures Strip(s) == s
  {
  }

  function LowerChar(ch: char): char
  {
    if 'A' <= ch <= 'Z' then (ch as int + 32) as char else ch
  }

  /** `s.lower()`, restricted to ASCII letters. */
  function Lower(s: string): (r: string)
    ensures |r| == |s|
    ensures forall k :: 0 <= k < |s| ==> r[k] == LowerChar(s[k])
  {
    if |s| == 0 then "" else [LowerChar(s[0])] + Lower(s[1..])
  }

  /** `c * n`. */
  function Repeat(c: char, n: int): (r: string)
    ensures |r| == Max(0, n)
    ensures forall k :: 0 <= k < |r| ==> r[k] == c
  {
    if n <= 0 then "" else [c] + Repeat(c, n - 1)
  }
}
