/** Shared vocabulary: optional values, Python truthiness, and the few
    string and path operations the downloader relies on. */
module Common {

  datatype Option<+T> = None | Some(value: T)

  /** Python truthiness of an optional integer: `None` and `0` are false. */
  predicate TruthyInt(o: Option<int>) {
    o.Some? && o.value != 0
  }

  /** Python truthiness of an optional string: `None` and `""` are false. */
  predicate TruthyStr(o: Option<string>) {
    o.Some? && o.value != ""
  }

  /** The characters Python's `str.isspace` (and the regex class `\s`) accept. */
  predicate IsSpace(c: char) {
    var n := c as int;
    (0x09 <= n <= 0x0d) || (0x1c <= n <= 0x20) || n == 0x85 || n == 0xa0
    || n == 0x1680 || (0x2000 <= n <= 0x200a) || n == 0x2028 || n == 0x2029
    || n == 0x202f || n == 0x205f || n == 0x3000
  }

  function LowerChar(c: char): char {
    if 'A' <= c <= 'Z' then (c as int + 32) as char else c
  }

  /** `str.lower()` restricted to ASCII letters. */
  function Lower(s: string): (r: string)
    ensures |r| == |s|
    ensures forall i :: 0 <= i < |s| ==> r[i] == LowerChar(s[i])
    decreases |s|
  {
    if s == [] then [] else Lower(s[..|s| - 1]) + [LowerChar(s[|s| - 1])]
  }

  predicate IsPrefix(p: string, s: string) {
    |p| <= |s| && s[..|p|] == p
  }

  /** `sub in s` for Python strings. */
  predicate Contains(s: string, sub: string)
    decreases |s|
  {
    IsPrefix(sub, s) || (|s| > 0 && Contains(s[1..], sub))
  }

  /** Containment located at an explicit position. */
  lemma {:induction false} ContainsAt(s: string, sub: string, i: nat)
    requires i + |sub| <= |s| && s[i..i + |sub|] == sub
    ensures Contains(s, sub)
    decreases i
  {
    if i == 0 {
      assert s[..|sub|] == sub;
    } else {
      assert s[1..][i - 1..i - 1 + |sub|] == s[i..i + |sub|];
      ContainsAt(s[1..], sub, i - 1);
    }
  }

  /** Every occurrence of a needle has a position. */
  lemma {:induction false} ContainsWitness(s: string, sub: string) returns (i: nat)
    requires Contains(s, sub)
    ensures i + |sub| <= |s| && s[i..i + |sub|] == sub
    decreases |s|
  {
    if IsPrefix(sub, s) {
      i := 0;
    } else {
      var j := ContainsWitness(s[1..], sub);
      assert s[1..][j..j + |sub|] == s[j + 1..j + 1 + |sub|];
      i := j + 1;
    }
  }

  /** A string that contains `a + b` contains `b`. */
  lemma ContainsTail(s: string, a: string, b: string)
    requires Contains(s, a + b)
    ensures Contains(s, b)
  {
    var i := ContainsWitness(s, a + b);
    assert s[i + |a|..i + |a| + |b|] == (a + b)[|a|..];
    ContainsAt(s, b, i + |a|);
  }

  function StripLeft(s: string): (r: string)
    ensures |r| <= |s| && r == s[|s| - |r|..]
    ensures r != [] ==> !IsSpace(r[0])
    ensures forall i :: 0 <= i < |s| - |r| ==> IsSpace(s[i])
    decreases |s|
  {
    if s != [] && IsSpace(s[0]) then StripLeft(s[1..]) else s
  }

  function StripRight(s: string): (r: string)
    ensures |r| <= |s| && r == s[..|r|]
    ensures r != [] ==> !IsSpace(r[|r| - 1])
    ensures forall i :: |r| <= i < |s| ==> IsSpace(s[i])
    decreases |s|
  {
    if s != [] && IsSpace(s[|s| - 1]) then StripRight(s[..|s| - 1]) else s
  }

  /** `r` is `s` from position `i` on, with only whitespace before `i` and
      after `r`. */
  predicate StrippedAt(s: string, r: string, i: nat) {
    && i + |r| <= |s| && r == s[i..i + |r|]
    && (forall k :: 0 <= k < i ==> IsSpace(s[k]))
    && (forall k :: i + |r| <= k < |s| ==> IsSpace(s[k]))
  }

  /** `str.strip()`: the longest infix with no surrounding whitespace. */
  function Strip(s: string): (r: string)
    ensures r != [] ==> !IsSpace(r[0]) && !IsSpace(r[|r| - 1])
    ensures exists i: nat :: StrippedAt(s, r, i)
  {
    var l := StripLeft(s);
    var r := StripRight(l);
    assert StrippedAt(s, r, |s| - |l|) by {
      assert r == l[..|r|];
      forall k | |s| - |l| + |r| <= k < |s| ensures IsSpace(s[k]) {
        assert s[k] == l[k - (|s| - |l|)];
      }
    }
    r
  }

  /** Any infix of `s` that has only whitespace around it and no whitespace
      at either end is what `Strip` returns. */
  lemma StripUnique(s: string, t: string, j: nat)
    requires StrippedAt(s, t, j)
    requires t != [] ==> !IsSpace(t[0]) && !IsSpace(t[|t| - 1])
    ensures t == Strip(s)
  {
    var r := Strip(s);
    var i: nat :| StrippedAt(s, r, i);
    if r != [] && t != [] {
      assert s[i] == r[0] && s[j] == t[0];
      assert i == j;
      assert s[i + |r| - 1] == r[|r| - 1] && s[j + |t| - 1] == t[|t| - 1];
      assert |r| == |t|;
    }
  }

  /** `pathlib.Path(a) / b` for a relative component `b`; an empty
      component leaves the path as it is. */
  function JoinPath(a: string, b: string): string {
    if b == "" then a else a + "/" + b
  }

  /** Extending a processed prefix by the next element. */
  lemma PrefixSnoc<T>(done: seq<T>, s: seq<T>, j: nat)
    requires j < |s|
    ensures (done + s[..j]) + [s[j]] == done + s[..j + 1]
  {
    assert s[..j + 1] == s[..j] + [s[j]];
  }

  /** The empty prefix and the whole sequence. */
  lemma PrefixEnds<T>(done: seq<T>, s: seq<T>)
    ensures done + s[..0] == done && done + s[..|s|] == done + s
  {
    assert s[..0] == [] && s[..|s|] == s;
  }

  /** A prefix extended by the next element. */
  lemma SliceSnoc<T>(s: seq<T>, j: nat)
    requires j < |s|
    ensures s[..j] + [s[j]] == s[..j + 1]
  {
  }

  /** The empty prefix and the whole sequence. */
  lemma SliceEnds<T>(s: seq<T>)
    ensures s[..0] == [] && s[..|s|] == s
  {
  }
}
