/**
 * Python string operations used to read the download script's output:
 * `str.split()` with no separator and slicing with step 1.
 */
module PyText {
  /** Python's `str.isspace()` for a single character. */
  predicate IsSpace(c: char) {
    var n := c as int;
    || (0x09 <= n <= 0x0D)
    || (0x1C <= n <= 0x20)
    || n == 0x85
    || n == 0xA0
    || n == 0x1680
    || (0x2000 <= n <= 0x200A)
    || n == 0x2028
    || n == 0x2029
    || n == 0x202F
    || n == 0x205F
    || n == 0x3000
  }

  predicate NoSpace(s: string) {
    forall i :: 0 <= i < |s| ==> !IsSpace(s[i])
  }

  predicate AllSpace(s: string) {
    forall i :: 0 <= i < |s| ==> IsSpace(s[i])
  }

  /** A token as `str.split()` yields it: non-empty and free of whitespace. */
  predicate IsToken(t: string) {
    t != [] && NoSpace(t)
  }

  /** The length of the run of non-whitespace characters at the start of `s`. */
  function TokenEnd(s: string): (n: nat)
    ensures n <= |s|
    ensures NoSpace(s[..n])
    ensures n < |s| ==> IsSpace(s[n])
  {
    if s == [] || IsSpace(s[0]) then 0
    else
      1 + TokenEnd(s[1..])
  }

  /**
   * `s.split()`: the maximal runs of non-whitespace characters of `s`, in
   * order; leading, trailing and repeated whitespace yields no empty token.
   */
  function Split(s: string): (tokens: seq<string>)
    ensures forall i :: 0 <= i < |tokens| ==> IsToken(tokens[i])
    decreases |s|
  {
    if s == [] then []
    else if IsSpace(s[0]) then Split(s[1..])
    else
      var n := TokenEnd(s);
      [s[..n]] + Split(s[n..])
  }

  /** Where a slice bound `i` lands in a sequence of length `len` (step 1). */
  function SliceBound(i: int, len: nat): (k: nat)
    ensures k <= len
  {
    if i < 0 then (if i + len < 0 then 0 else i + len)
    else if i > len then len
    else i
  }

  /** `s[start:stop]` in Python. */
  function Slice<T>(s: seq<T>, start: int, stop: int): (r: seq<T>)
    ensures |r| <= |s|
  {
    var a, b := SliceBound(start, |s|), SliceBound(stop, |s|);
    if a < b then s[a..b] else []
  }

  /** `t[1:-1]`: the interior of `t` without its first and last element. */
  lemma InteriorSlice<T>(t: seq<T>)
    ensures |Slice(t, 1, -1)| == if |t| < 2 then 0 else |t| - 2
    ensures forall i :: 0 <= i < |Slice(t, 1, -1)| ==> Slice(t, 1, -1)[i] == t[i + 1]
    ensures |t| >= 2 ==> Slice(t, 1, -1) == t[1..|t| - 1]
  {
  }

  /** Stripping one element from each end undoes wrapping in a pair of quotes. */
  lemma UnquoteQuote<T>(open: T, x: seq<T>, close: T)
    ensures Slice([open] + x + [close], 1, -1) == x
  {
    var q := [open] + x + [close];
    assert q[1..|q| - 1] == x;
  }

  /** The characters of `s` that are not whitespace, in order. */
  function NonSpace(s: string): (r: string)
    ensures |r| <= |s|
  {
    if s == [] then []
    else if IsSpace(s[0]) then NonSpace(s[1..])
    else [s[0]] + NonSpace(s[1..])
  }

  function Concat(ts: seq<string>): string {
    if ts == [] then [] else ts[0] + Concat(ts[1..])
  }

  /** `sep.join(ts)` in Python. */
  function Join(sep: string, ts: seq<string>): string {
    if ts == [] then []
    else if |ts| == 1 then ts[0]
    else ts[0] + sep + Join(sep, ts[1..])
  }

  lemma {:induction false} NonSpaceAppend(a: string, b: string)
    ensures NonSpace(a + b) == NonSpace(a) + NonSpace(b)
    decreases |a|
  {
    if a != [] {
      assert (a + b)[0] == a[0] && (a + b)[1..] == a[1..] + b;
      NonSpaceAppend(a[1..], b);
    } else {
      assert a + b == b;
    }
  }

  lemma {:induction false} NonSpaceOfToken(t: string)
    requires NoSpace(t)
    ensures NonSpace(t) == t
    decreases |t|
  {
    if t != [] {
      NonSpaceOfToken(t[1..]);
    }
  }

  /** Splitting loses exactly the whitespace: the tokens spell out the rest of the text. */
  lemma {:induction false} SplitKeepsNonSpace(s: string)
    ensures Concat(Split(s)) == NonSpace(s)
    decreases |s|
  {
    if s == [] {
    } else if IsSpace(s[0]) {
      SplitKeepsNonSpace(s[1..]);
    } else {
      var n := TokenEnd(s);
      var rest := Split(s[n..]);
      assert Split(s) == [s[..n]] + rest;
      assert ([s[..n]] + rest)[1..] == rest;
      SplitKeepsNonSpace(s[n..]);
      assert s == s[..n] + s[n..];
      NonSpaceAppend(s[..n], s[n..]);
      NonSpaceOfToken(s[..n]);
    }
  }

  /** Leading whitespace contributes no tokens. */
  lemma {:induction false} SplitSkipsSpace(w: string, s: string)
    requires AllSpace(w)
    ensures Split(w + s) == Split(s)
    decreases |w|
  {
    if w != [] {
      assert (w + s)[0] == w[0] && (w + s)[1..] == w[1..] + s;
      SplitSkipsSpace(w[1..], s);
    } else {
      assert w + s == s;
    }
  }

  lemma {:induction false} TokenEndOfToken(t: string, x: string)
    requires NoSpace(t)
    requires x == [] || IsSpace(x[0])
    ensures TokenEnd(t + x) == |t|
    decreases |t|
  {
    if t != [] {
      assert (t + x)[1..] == t[1..] + x;
      TokenEndOfToken(t[1..], x);
    }
  }

  /** A token followed by whitespace (or by nothing) is split off as one token. */
  lemma SplitToken(t: string, x: string)
    requires IsToken(t)
    requires x == [] || IsSpace(x[0])
    ensures Split(t + x) == [t] + Split(x)
  {
    TokenEndOfToken(t, x);
    var s := t + x;
    assert s[..|t|] == t && s[|t|..] == x;
  }

  /** Splitting undoes joining tokens with any non-empty whitespace separator. */
  lemma {:induction false} SplitJoin(sep: string, ts: seq<string>)
    requires sep != [] && AllSpace(sep)
    requires forall i :: 0 <= i < |ts| ==> IsToken(ts[i])
    ensures Split(Join(sep, ts)) == ts
    decreases |ts|
  {
    if |ts| == 1 {
      SplitToken(ts[0], []);
      assert ts[0] + [] == ts[0];
    } else if |ts| > 1 {
      var rest := Join(sep, ts[1..]);
      assert Join(sep, ts) == ts[0] + (sep + rest);
      SplitToken(ts[0], sep + rest);
      SplitSkipsSpace(sep, rest);
      SplitJoin(sep, ts[1..]);
    }
  }
}
