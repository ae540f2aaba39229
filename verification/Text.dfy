/** Strings as the repository's Go code sees them: trimming, searching, splitting and joining. */
module Text {
  datatype Option<+T> = None | Some(value: T)

  datatype Result<+T, +E> = Ok(value: T) | Err(error: E)

  /** Unicode White_Space, the set behind strings.TrimSpace and strings.Fields. */
  predicate IsSpace(c: char) {
    || '\t' <= c <= '\r'
    || c == ' ' || c == '\U{0085}' || c == '\U{00A0}' || c == '\U{1680}'
    || '\U{2000}' <= c <= '\U{200A}'
    || c == '\U{2028}' || c == '\U{2029}' || c == '\U{202F}' || c == '\U{205F}' || c == '\U{3000}'
  }

  /** A string TrimSpace would return unchanged. */
  predicate Trimmed(s: string) {
    s != "" ==> !IsSpace(s[0]) && !IsSpace(s[|s| - 1])
  }

  function TrimLeft(s: string): (r: string)
    ensures r != "" ==> !IsSpace(r[0])
    ensures |r| <= |s| && r == s[|s| - |r|..]
    ensures forall i :: 0 <= i < |s| - |r| ==> IsSpace(s[i])
  {
    if s != "" && IsSpace(s[0]) then TrimLeft(s[1..]) else s
  }

  function TrimRight(s: string): (r: string)
    ensures r != "" ==> !IsSpace(r[|r| - 1])
    ensures |r| <= |s| && r == s[..|r|]
    ensures forall i :: |r| <= i < |s| ==> IsSpace(s[i])
  {
    if s != "" && IsSpace(s[|s| - 1]) then TrimRight(s[..|s| - 1]) else s
  }

  /** strings.TrimSpace */
  function Trim(s: string): (r: string)
    ensures Trimmed(r)
    ensures Trimmed(s) ==> r == s
  {
    TrimRight(TrimLeft(s))
  }

  /** The parts trimmed, and those then empty dropped. */
  function NonBlank(parts: seq<string>): (r: seq<string>)
    decreases |parts|
  {
    if parts == [] then []
    else
      var init, part := NonBlank(parts[..|parts| - 1]), Trim(parts[|parts| - 1]);
      if part == "" then init else init + [part]
  }

  /** The characters of s that are not white space, in order. */
  function Ink(s: string): string {
    if s == "" then "" else (if IsSpace(s[0]) then "" else [s[0]]) + Ink(s[1..])
  }

  lemma {:induction false} InkConcat(a: string, b: string)
    ensures Ink(a + b) == Ink(a) + Ink(b)
  {
    if a == "" {
      assert a + b == b;
    } else {
      assert (a + b)[0] == a[0] && (a + b)[1..] == a[1..] + b;
      InkConcat(a[1..], b);
    }
  }

  lemma {:induction false} InkOfBlank(s: string)
    requires forall i :: 0 <= i < |s| ==> IsSpace(s[i])
    ensures Ink(s) == ""
  {
    if s != "" {
      InkOfBlank(s[1..]);
    }
  }

  /** Trimming keeps every character that is not white space. */
  lemma {:induction false} InkTrim(s: string)
    ensures Ink(Trim(s)) == Ink(s)
  {
    hide Ink, TrimLeft, TrimRight;
    var l := TrimLeft(s);
    var r := TrimRight(l);
    assert Ink(l) == Ink(r) by {
      var trail := l[|r|..];
      InkOfBlank(trail);
      assert l == r + trail;
      InkConcat(r, trail);
      assert Ink(r) + "" == Ink(r);
    }
    var lead := s[..|s| - |l|];
    InkOfBlank(lead);
    assert s == lead + l;
    InkConcat(lead, l);
    assert "" + Ink(l) == Ink(l);
  }

  /** sep stands in s at position i. */
  predicate At(s: string, sep: string, i: int) {
    0 <= i <= |s| - |sep| && s[i..i + |sep|] == sep
  }

  /** The first position of sep in s at or after from, or -1. */
  function IndexFrom(s: string, sep: string, from: nat): (r: int)
    ensures r == -1 || (from <= r && At(s, sep, r))
    ensures forall i :: from <= i && At(s, sep, i) ==> 0 <= r <= i
    decreases |s| - from
  {
    if from > |s| - |sep| then -1
    else if s[from..from + |sep|] == sep then from
    else IndexFrom(s, sep, from + 1)
  }

  /** strings.Index: the first position of sep in s, or -1. */
  function IndexOf(s: string, sep: string): (r: int)
    ensures r == -1 || At(s, sep, r)
    ensures forall i :: At(s, sep, i) ==> 0 <= r <= i
  {
    IndexFrom(s, sep, 0)
  }

  function Join(parts: seq<string>, sep: string): string {
    if |parts| == 0 then ""
    else if |parts| == 1 then parts[0]
    else parts[0] + sep + Join(parts[1..], sep)
  }

  /** strings.Split: the pieces hold no separator and joining them gives the string back. */
  function Split(s: string, sep: string): (parts: seq<string>)
    requires sep != ""
    ensures |parts| >= 1
    ensures Join(parts, sep) == s
    ensures forall p :: p in parts ==> IndexOf(p, sep) == -1
    decreases |s|
  {
    var i := IndexOf(s, sep);
    if i < 0 then [s]
    else
      assert s == s[..i] + sep + s[i + |sep|..];
      assert forall k :: At(s[..i], sep, k) ==> At(s, sep, k);
      [s[..i]] + Split(s[i + |sep|..], sep)
  }

  lemma {:induction false} IndexAfter(a: string, c: char, rest: string)
    requires c !in a
    ensures IndexOf(a + [c] + rest, [c]) == |a|
  {
    var s := a + [c] + rest;
    assert At(s, [c], |a|);
    var i := IndexOf(s, [c]);
    assert s[i] == s[i..i + 1][0] == c;
    assert forall k :: 0 <= k < |a| ==> s[k] == a[k];
  }

  /** Splitting at a character peels off the part before its first occurrence. */
  lemma {:induction false} SplitCons(a: string, c: char, rest: string)
    requires c !in a
    ensures Split(a + [c] + rest, [c]) == [a] + Split(rest, [c])
  {
    var s := a + [c] + rest;
    IndexAfter(a, c, rest);
    assert s[..|a|] == a && s[|a| + 1..] == rest;
  }

  lemma {:induction false} IndexOfNone(a: string, c: char)
    ensures IndexOf(a, [c]) == -1 <==> c !in a
  {
    var i := IndexOf(a, [c]);
    if i != -1 {
      assert a[i] == a[i..i + 1][0] == c;
    }
    assert forall k :: 0 <= k < |a| && a[k] == c ==> At(a, [c], k);
  }

  predicate IsDigit(c: char) {
    '0' <= c <= '9'
  }

  function Digit(n: nat): (c: char)
    requires n < 10
    ensures IsDigit(c) && DigitValue(c) == n
  {
    (n + '0' as int) as char
  }

  function DigitValue(c: char): (n: nat)
    requires IsDigit(c)
    ensures n < 10
  {
    c as int - '0' as int
  }

  /** n printed with exactly two digits. */
  function Two(n: nat): (s: string)
    requires n < 100
    ensures |s| == 2 && IsDigit(s[0]) && IsDigit(s[1])
    ensures TwoValue(s) == n
  {
    [Digit(n / 10), Digit(n % 10)]
  }

  function TwoValue(s: string): (n: nat)
    requires |s| == 2 && IsDigit(s[0]) && IsDigit(s[1])
    ensures n < 100
  {
    10 * DigitValue(s[0]) + DigitValue(s[1])
  }

  predicate AllDigits(s: string) {
    forall i :: 0 <= i < |s| ==> IsDigit(s[i])
  }
}
