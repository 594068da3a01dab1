/**
 * The string operations the pipeline applies to captured process output and to
 * input lines: Python's argument-less `str.strip()`, `str.split('\n')` and the
 * `if line:` filter that drops empty pieces.
 */
module Text {

  /** The characters Python's `str.isspace()` accepts, which are the ones an
      argument-less `str.strip()` removes. */
  predicate IsSpace(c: char) {
    var n := c as int;
    (9 <= n <= 13) || (28 <= n <= 32) || n == 0x85 || n == 0xA0 || n == 0x1680
    || (0x2000 <= n <= 0x200A) || n == 0x2028 || n == 0x2029 || n == 0x202F
    || n == 0x205F || n == 0x3000
  }

  predicate AllSpace(s: string) {
    forall i :: 0 <= i < |s| ==> IsSpace(s[i])
  }

  /** Removes the leading whitespace: what is left is a suffix of `s` that starts
      with a non-space character, and everything removed is whitespace. */
  function StripLeft(s: string): (r: string)
    ensures |r| <= |s| && r == s[|s| - |r|..]
    ensures AllSpace(s[..|s| - |r|])
    ensures r == [] || !IsSpace(r[0])
  {
    if s != [] && IsSpace(s[0]) then StripLeft(s[1..]) else s
  }

  /** Removes the trailing whitespace: what is left is a prefix of `s` that ends
      with a non-space character, and everything removed is whitespace. */
  function StripRight(s: string): (r: string)
    ensures |r| <= |s| && r == s[..|r|]
    ensures AllSpace(s[|r|..])
    ensures r == [] || !IsSpace(r[|r| - 1])
  {
    if s != [] && IsSpace(s[|s| - 1]) then StripRight(s[..|s| - 1]) else s
  }

  /** Python's `s.strip()`. */
  function Strip(s: string): string {
    StripRight(StripLeft(s))
  }

  /** `Strip(s)` is the infix `s[i..j]` left once the maximal whitespace prefix
      and suffix are cut off. */
  lemma StripIsMaximalInfix(s: string) returns (i: nat, j: nat)
    ensures i <= j <= |s| && Strip(s) == s[i..j]
    ensures AllSpace(s[..i]) && AllSpace(s[j..])
    ensures i < j ==> !IsSpace(s[i]) && !IsSpace(s[j - 1])
  {
    var l := StripLeft(s);
    var r := StripRight(l);
    i := |s| - |l|;
    j := i + |r|;
    InfixOfSuffix(s, l, r);
  }

  /** Cutting a prefix `r` off the suffix `l` of `s` gives an infix of `s`
      whose ends are the ends of `l` and `r`. */
  lemma InfixOfSuffix(s: string, l: string, r: string)
    requires |l| <= |s| && l == s[|s| - |l|..]
    requires |r| <= |l| && r == l[..|r|]
    ensures var i := |s| - |l|; var j := i + |r|;
      && r == s[i..j] && s[j..] == l[|r|..]
      && (i < j ==> s[i] == l[0] && s[j - 1] == r[|r| - 1])
  {
  }

  /** Whitespace-only text strips to nothing, and only such text does. */
  lemma StripEmptyIffAllSpace(s: string)
    ensures Strip(s) == [] <==> AllSpace(s)
  {
    var i, j := StripIsMaximalInfix(s);
    if Strip(s) == [] {
      assert i == j;
      forall k | 0 <= k < |s| ensures IsSpace(s[k]) {
        if k < i { assert s[..i][k] == s[k]; } else { assert s[j..][k - j] == s[k]; }
      }
    }
  }

  /** Python's `s.split('\n')`: always at least one piece, one more than the
      number of newlines. */
  function Split(s: string): (r: seq<string>)
    ensures |r| >= 1
  {
    if s == [] then [[]]
    else
      var rest := Split(s[1..]);
      if s[0] == '\n' then [[]] + rest else [[s[0]] + rest[0]] + rest[1..]
  }

  /** `'\n'.join(parts)`, the inverse of `Split`. */
  function Join(parts: seq<string>): string
    requires |parts| >= 1
  {
    if |parts| == 1 then parts[0] else parts[0] + "\n" + Join(parts[1..])
  }

  predicate NoNewline(s: string) {
    forall i :: 0 <= i < |s| ==> s[i] != '\n'
  }

  predicate AllNoNewline(parts: seq<string>) {
    forall k :: 0 <= k < |parts| ==> NoNewline(parts[k])
  }

  /** The number of newline characters in `s`. */
  function Newlines(s: string): nat {
    if s == [] then 0 else (if s[0] == '\n' then 1 else 0) + Newlines(s[1..])
  }

  /** Splitting cuts exactly at the newlines: no piece holds one, there is one
      piece more than there are newlines, and joining the pieces gives `s` back. */
  lemma {:induction false} SplitJoin(s: string)
    ensures AllNoNewline(Split(s))
    ensures |Split(s)| == Newlines(s) + 1
    ensures Join(Split(s)) == s
  {
    if s != [] {
      SplitJoin(s[1..]);
      var rest := Split(s[1..]);
      if s[0] == '\n' {
        assert Split(s)[1..] == rest;
      } else {
        var r := Split(s);
        assert r[0] == [s[0]] + rest[0];
        assert r[1..] == rest[1..];
        forall k | 0 <= k < |r| ensures NoNewline(r[k]) {
          if k == 0 {
            assert NoNewline(rest[0]);
          } else {
            assert r[k] == rest[k];
          }
        }
        if |rest| == 1 {
          assert Join(r) == r[0];
        } else {
          assert Join(rest) == rest[0] + "\n" + Join(rest[1..]);
          assert Join(r) == r[0] + "\n" + Join(r[1..]);
        }
      }
    }
  }

  /** Joining newline-free pieces and splitting again gives the same pieces. */
  lemma {:induction false} JoinSplit(parts: seq<string>)
    requires |parts| >= 1 && AllNoNewline(parts)
    ensures Split(Join(parts)) == parts
  {
    if |parts| == 1 {
      SplitNoNewline(parts[0]);
    } else {
      assert AllNoNewline(parts[1..]) by {
        forall k | 0 <= k < |parts| - 1 ensures NoNewline(parts[1..][k]) {
          assert parts[1..][k] == parts[k + 1];
        }
      }
      JoinSplit(parts[1..]);
      SplitPrefix(parts[0], Join(parts[1..]));
    }
  }

  lemma {:induction false} SplitNoNewline(s: string)
    requires NoNewline(s)
    ensures Split(s) == [s]
  {
    if s != [] {
      assert s[0] != '\n';
      SplitNoNewline(s[1..]);
      assert [s[0]] + s[1..] == s;
    }
  }

  lemma {:induction false} SplitPrefix(p: string, t: string)
    requires NoNewline(p)
    ensures Split(p + "\n" + t) == [p] + Split(t)
  {
    if p == [] {
      assert p + "\n" + t == "\n" + t;
      assert ("\n" + t)[1..] == t;
    } else {
      assert (p + "\n" + t)[1..] == p[1..] + "\n" + t;
      SplitPrefix(p[1..], t);
      assert [p[0]] + p[1..] == p;
    }
  }

  /** The `if line:` filter: the non-empty pieces, in their original order. */
  function NonEmpty(parts: seq<string>): (r: seq<string>)
    ensures |r| <= |parts|
    ensures forall k :: 0 <= k < |r| ==> r[k] != [] && r[k] in parts
  {
    if parts == [] then []
    else if parts[0] == [] then NonEmpty(parts[1..])
    else [parts[0]] + NonEmpty(parts[1..])
  }

  lemma {:induction false} NonEmptyAppend(a: seq<string>, b: seq<string>)
    ensures NonEmpty(a + b) == NonEmpty(a) + NonEmpty(b)
  {
    if a == [] {
      assert a + b == b;
    } else {
      assert (a + b)[1..] == a[1..] + b;
      NonEmptyAppend(a[1..], b);
    }
  }

  /** Concatenation of a list of strings. */
  function Concat(parts: seq<string>): string {
    if parts == [] then [] else parts[0] + Concat(parts[1..])
  }

  /** `s` with its newline characters taken out. */
  function RemoveNewlines(s: string): string {
    if s == [] then [] else (if s[0] == '\n' then [] else [s[0]]) + RemoveNewlines(s[1..])
  }

  /** Dropping the empty pieces loses no character: the kept pieces concatenate
      to the same text as all pieces. */
  lemma {:induction false} NonEmptyKeepsText(parts: seq<string>)
    ensures Concat(NonEmpty(parts)) == Concat(parts)
  {
    if parts != [] {
      NonEmptyKeepsText(parts[1..]);
    }
  }

  /** The pieces of `Split(s)` concatenate to `s` without its newlines. */
  lemma {:induction false} SplitKeepsText(s: string)
    ensures Concat(Split(s)) == RemoveNewlines(s)
  {
    if s != [] {
      SplitKeepsText(s[1..]);
      var rest := Split(s[1..]);
      if s[0] != '\n' {
        var r := Split(s);
        assert r[1..] == rest[1..];
        assert Concat(rest) == rest[0] + Concat(rest[1..]);
        assert Concat(r) == ([s[0]] + rest[0]) + Concat(rest[1..]);
      } else {
        assert Split(s)[1..] == rest;
      }
    }
  }
}
