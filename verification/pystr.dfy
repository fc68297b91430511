/** The handful of Python `str` built-ins the analyzer relies on, over
    `string` (a sequence of Unicode scalar values): `isspace`, `strip`,
    `endswith`, `split()` with no separator, `" ".join` and `str(int)`. */
module PyStr {

  import opened Results

  /** The characters Python's `str.isspace()`, `str.split()` and
      `str.strip()` treat as whitespace. */
  predicate IsSpace(c: char) {
    var n := c as int;
    || (0x09 <= n <= 0x0D)
    || (0x1C <= n <= 0x20)
    || n == 0x85 || n == 0xA0 || n == 0x1680
    || (0x2000 <= n <= 0x200A)
    || n == 0x2028 || n == 0x2029 || n == 0x202F || n == 0x205F || n == 0x3000
  }

  predicate AllSpace(s: string) {
    forall i :: 0 <= i < |s| ==> IsSpace(s[i])
  }

  predicate NoSpace(s: string) {
    forall i :: 0 <= i < |s| ==> !IsSpace(s[i])
  }

  /** `s.endswith(suffix)`: an exact, case-sensitive comparison of the tail. */
  predicate EndsWith(s: string, suffix: string) {
    |suffix| <= |s| && s[|s| - |suffix|..] == suffix
  }

  /** `s.endswith(suffix)` holds exactly when `s` is some string followed
      by `suffix`, and then that string is the part before the suffix. */
  lemma EndsWithAppend(p: string, suffix: string, s: string)
    requires s == p + suffix
    ensures EndsWith(s, suffix) && s[..|s| - |suffix|] == p
  {
  }

  lemma EndsWithCut(s: string, suffix: string)
    requires EndsWith(s, suffix)
    ensures s == s[..|s| - |suffix|] + suffix
  {
  }

  /** Whitespace throughout `s[lo..hi]`, stated on indices. */
  predicate SpaceBetween(s: string, lo: int, hi: int) {
    forall i :: lo <= i < hi && 0 <= i < |s| ==> IsSpace(s[i])
  }

  /** Number of whitespace characters at the front of `s`. */
  function LeadingSpace(s: string): (n: nat)
    ensures n <= |s| && SpaceBetween(s, 0, n)
    ensures n < |s| ==> !IsSpace(s[n])
  {
    if s == [] || !IsSpace(s[0]) then 0 else 1 + LeadingSpace(s[1..])
  }

  /** Number of whitespace characters at the back of `s[..hi]`. */
  function TrailingSpace(s: string, hi: nat): (n: nat)
    requires hi <= |s|
    ensures n <= hi && SpaceBetween(s, hi - n, hi)
    ensures n < hi ==> !IsSpace(s[hi - n - 1])
  {
    if hi == 0 || !IsSpace(s[hi - 1]) then 0 else 1 + TrailingSpace(s, hi - 1)
  }

  /** `s.strip()`: the infix left after removing whitespace at both ends. */
  function Strip(s: string): (r: string)
    ensures r == [] || (!IsSpace(r[0]) && !IsSpace(r[|r| - 1]))
    ensures var k := LeadingSpace(s);
      && k + |r| <= |s|
      && s[k..k + |r|] == r
      && SpaceBetween(s, 0, k) && SpaceBetween(s, k + |r|, |s|)
    ensures r == [] <==> AllSpace(s)
  {
    var k := LeadingSpace(s);
    var n := if k == |s| then 0 else TrailingSpace(s, |s|);
    s[k..|s| - n]
  }

  /** A token of `str.split()`: a non-empty run of non-whitespace. */
  predicate IsToken(t: string) {
    t != [] && NoSpace(t)
  }

  /** Length of the run of non-whitespace characters at the front of `s`. */
  function TokenLength(s: string): (n: nat)
    ensures n <= |s| && NoSpace(s[..n])
    ensures n < |s| ==> IsSpace(s[n])
  {
    if s == [] || IsSpace(s[0]) then 0 else 1 + TokenLength(s[1..])
  }

  /** `s.split()` with no separator: the maximal whitespace-free runs, in order. */
  function Split(s: string): (tokens: seq<string>)
    ensures forall i :: 0 <= i < |tokens| ==> IsToken(tokens[i])
    decreases |s|
  {
    if s == [] then []
    else if IsSpace(s[0]) then Split(s[1..])
    else
      var n := TokenLength(s);
      [s[..n]] + Split(s[n..])
  }

  /** `" ".join(tokens)`. */
  function JoinSpace(tokens: seq<string>): (r: string)
    ensures NonSpace(r) == NonSpace(Concat(tokens))
  {
    if tokens == [] then []
    else if |tokens| == 1 then
      assert tokens[1..] == [];
      assert Concat(tokens) == tokens[0] + [] == tokens[0];
      tokens[0]
    else
      var rest := JoinSpace(tokens[1..]);
      NonSpaceAppend(tokens[0] + " ", rest);
      NonSpaceAppend(tokens[0], " ");
      NonSpaceAppend(tokens[0], Concat(tokens[1..]));
      tokens[0] + " " + rest
  }

  predicate IsDigit(c: char) {
    '0' <= c <= '9'
  }

  function DigitChar(d: nat): (c: char)
    requires d < 10
    ensures IsDigit(c) && (c as int) - ('0' as int) == d
  {
    ['0', '1', '2', '3', '4', '5', '6', '7', '8', '9'][d]
  }

  /** `str(n)` for a non-negative integer: decimal digits, no sign, no padding. */
  function NatToString(n: nat): (r: string)
    ensures r != [] && forall i :: 0 <= i < |r| ==> IsDigit(r[i])
    ensures |r| > 1 ==> n >= 10 && r[0] != '0'
  {
    if n < 10 then [DigitChar(n)] else NatToString(n / 10) + [DigitChar(n % 10)]
  }

  /** The value of a run of decimal digits; `None` when `s` is empty or
      holds a non-digit. */
  function DigitsValue(s: string): Option<nat>
  {
    if s == [] || !IsDigit(s[|s| - 1]) then None
    else
      var d := (s[|s| - 1] as int) - ('0' as int);
      if |s| == 1 then Some(d)
      else
        match DigitsValue(s[..|s| - 1])
        case None => None
        case Some(high) => Some(10 * high + d)
  }

  /** Reads a length as `str(n)` writes it: decimal digits, no sign, and
      no leading zero unless the text is `0` itself. */
  function ParseNat(s: string): Option<nat>
  {
    if |s| > 1 && s[0] == '0' then None else DigitsValue(s)
  }

  /** The shape `" ".join(s.split())` produces: every whitespace character is
      a plain space, never first, never last, and never followed by more
      whitespace. */
  predicate SingleSpaced(r: string) {
    forall i :: 0 <= i < |r| && IsSpace(r[i]) ==> r[i] == ' ' && 0 < i < |r| - 1 && !IsSpace(r[i + 1])
  }

  /** Joining tokens with single spaces yields a single-spaced string, empty
      exactly when there were no tokens. */
  lemma {:induction false} JoinSingleSpaced(tokens: seq<string>)
    requires forall i :: 0 <= i < |tokens| ==> IsToken(tokens[i])
    ensures SingleSpaced(JoinSpace(tokens))
    ensures JoinSpace(tokens) == [] <==> tokens == []
  {
    if |tokens| > 1 {
      var t := tokens[0];
      var rest := JoinSpace(tokens[1..]);
      JoinSingleSpaced(tokens[1..]);
      var r := t + " " + rest;
      assert JoinSpace(tokens) == r;
      assert !IsSpace(rest[0]);
      forall i | 0 <= i < |r| && IsSpace(r[i])
        ensures r[i] == ' ' && 0 < i < |r| - 1 && !IsSpace(r[i + 1])
      {
        if i > |t| {
          assert r[i] == rest[i - |t| - 1];
          assert r[i + 1] == rest[i - |t|];
        }
      }
    }
  }

  /** A token never extends past a whitespace character. */
  lemma {:induction false} TokenStopsAtSpace(s: string, k: nat)
    requires k < |s| && IsSpace(s[k])
    ensures TokenLength(s) <= k
  {
    if k > 0 && !IsSpace(s[0]) {
      TokenStopsAtSpace(s[1..], k - 1);
    }
  }

  /** A token followed by whitespace (or nothing) is split off whole. */
  lemma SplitAfterToken(t: string, u: string)
    requires IsToken(t)
    requires u == [] || IsSpace(u[0])
    ensures Split(t + u) == [t] + Split(u)
  {
    var s := t + u;
    var n := TokenLength(s);
    assert forall i :: 0 <= i < |t| ==> s[i] == t[i];
    if u != [] {
      TokenStopsAtSpace(s, |t|);
    }
    assert s[..n] == t && s[n..] == u;
  }

  /** Leading whitespace is skipped. */
  lemma {:induction false} SplitSkipsSpace(w: string, b: string)
    requires AllSpace(w)
    ensures Split(w + b) == Split(b)
  {
    if w != [] {
      assert (w + b)[0] == w[0];
      assert (w + b)[1..] == w[1..] + b;
      SplitSkipsSpace(w[1..], b);
    } else {
      assert w + b == b;
    }
  }

  /** The token at the front of `a` is the token at the front of `a + b`
      when it ends inside `a`, or when `b` starts with whitespace. */
  lemma {:induction false} TokenLengthAppend(a: string, b: string)
    requires TokenLength(a) < |a| || b == [] || IsSpace(b[0])
    ensures TokenLength(a + b) == TokenLength(a)
  {
    if a == [] {
      assert a + b == b;
    } else if !IsSpace(a[0]) {
      assert (a + b)[0] == a[0];
      assert (a + b)[1..] == a[1..] + b;
      TokenLengthAppend(a[1..], b);
    }
  }

  /** A run of whitespace inside a string is a token boundary: the tokens
      of `a + w + b` are those of `a` followed by those of `b`. */
  lemma {:induction false} SplitAcrossSpace(a: string, w: string, b: string)
    requires w != [] && AllSpace(w)
    ensures Split(a + w + b) == Split(a) + Split(b)
    decreases |a|
  {
    var rest := w + b;
    assert a + w + b == a + rest;
    if a == [] {
      SplitSkipsSpace(w, b);
      assert a + rest == rest;
    } else if IsSpace(a[0]) {
      SplitDropsSpace(a, rest);
      SplitAcrossSpace(a[1..], w, b);
      assert a[1..] + w + b == a[1..] + rest;
    } else {
      var n := TokenLength(a);
      SplitFirstToken(a, rest);
      if n < |a| {
        SplitAcrossSpace(a[n..], w, b);
        assert a[n..] + w + b == a[n..] + rest;
      } else {
        SplitSkipsSpace(w, b);
        assert a[n..] + rest == rest;
      }
    }
  }

  /** A leading whitespace character is skipped, whatever follows. */
  lemma SplitDropsSpace(a: string, rest: string)
    requires a != [] && IsSpace(a[0])
    ensures Split(a + rest) == Split(a[1..] + rest) && Split(a) == Split(a[1..])
  {
    SliceAppend(a, rest, 1);
    assert (a + rest)[0] == a[0];
  }

  /** The first token of `a + rest`, when `a` starts with one that ends in
      `a` or is followed by whitespace, is that token of `a`. */
  lemma SplitFirstToken(a: string, rest: string)
    requires a != [] && !IsSpace(a[0])
    requires TokenLength(a) < |a| || rest == [] || IsSpace(rest[0])
    ensures var n := TokenLength(a);
      && Split(a + rest) == [a[..n]] + Split(a[n..] + rest)
      && Split(a) == [a[..n]] + Split(a[n..])
  {
    var s := a + rest;
    var n := TokenLength(a);
    SliceAppend(a, rest, n);
    TokenLengthAppend(a, rest);
    assert s[0] == a[0] && s != [];
    assert Split(s) == [s[..n]] + Split(s[n..]);
  }

  /** Slicing `a + rest` at a point inside `a`. */
  lemma SliceAppend(a: string, rest: string, n: nat)
    requires n <= |a|
    ensures (a + rest)[..n] == a[..n] && (a + rest)[n..] == a[n..] + rest
  {
  }

  /** The non-whitespace characters of `s`, in order. */
  function NonSpace(s: string): string
  {
    if s == [] then [] else (if IsSpace(s[0]) then [] else [s[0]]) + NonSpace(s[1..])
  }

  /** The tokens written one after another. */
  function Concat(tokens: seq<string>): string
  {
    if tokens == [] then [] else tokens[0] + Concat(tokens[1..])
  }

  lemma {:induction false} NonSpaceAppend(a: string, b: string)
    ensures NonSpace(a + b) == NonSpace(a) + NonSpace(b)
  {
    if a != [] {
      assert (a + b)[0] == a[0];
      assert (a + b)[1..] == a[1..] + b;
      NonSpaceAppend(a[1..], b);
    } else {
      assert a + b == b;
    }
  }

  lemma {:induction false} NonSpaceOfToken(t: string)
    requires NoSpace(t)
    ensures NonSpace(t) == t
  {
    if t != [] {
      NonSpaceOfToken(t[1..]);
    }
  }

  /** `split()` drops exactly the whitespace: its tokens, written one after
      another, are the non-whitespace characters of `s` in order. */
  lemma {:induction false} SplitKeepsNonSpace(s: string)
    ensures Concat(Split(s)) == NonSpace(s)
    decreases |s|
  {
    if s != [] {
      if IsSpace(s[0]) {
        SplitKeepsNonSpace(s[1..]);
      } else {
        var n := TokenLength(s);
        SplitKeepsNonSpace(s[n..]);
        NonSpaceOfToken(s[..n]);
        NonSpaceAppend(s[..n], s[n..]);
        assert s[..n] + s[n..] == s;
        assert Split(s) == [s[..n]] + Split(s[n..]);
        assert ([s[..n]] + Split(s[n..]))[1..] == Split(s[n..]);
      }
    }
  }

  /** Splitting undoes joining: `" ".join` loses no token boundary. */
  lemma {:induction false} SplitJoin(tokens: seq<string>)
    requires forall i :: 0 <= i < |tokens| ==> IsToken(tokens[i])
    ensures Split(JoinSpace(tokens)) == tokens
  {
    if |tokens| == 1 {
      SplitAfterToken(tokens[0], []);
      assert tokens[0] + [] == tokens[0];
    } else if |tokens| > 1 {
      var t := tokens[0];
      var rest := JoinSpace(tokens[1..]);
      SplitAfterToken(t, " " + rest);
      assert t + " " + rest == t + (" " + rest);
      assert (" " + rest)[1..] == rest;
      SplitJoin(tokens[1..]);
    }
  }

  /** After the first whitespace of a single-spaced string comes a
      non-empty single-spaced rest. */
  lemma SingleSpacedAfterSpace(s: string, n: nat)
    requires SingleSpaced(s) && n < |s| && IsSpace(s[n])
    ensures s[n] == ' ' && n + 1 < |s| && !IsSpace(s[n + 1])
    ensures SingleSpaced(s[n + 1..])
  {
    var tail := s[n + 1..];
    forall i | 0 <= i < |tail| && IsSpace(tail[i])
      ensures tail[i] == ' ' && 0 < i < |tail| - 1 && !IsSpace(tail[i + 1])
    {
      assert tail[i] == s[n + 1 + i];
      if i + 1 < |tail| {
        assert tail[i + 1] == s[n + 2 + i];
      }
    }
  }

  /** A single-spaced string is rebuilt exactly from its tokens. */
  lemma {:induction false} SingleSpacedFixpoint(s: string)
    requires SingleSpaced(s)
    ensures JoinSpace(Split(s)) == s
    decreases |s|
  {
    if s != [] {
      assert !IsSpace(s[0]);
      var n := TokenLength(s);
      var t := s[..n];
      assert Split(s) == [t] + Split(s[n..]);
      if n == |s| {
        assert s[n..] == [];
      } else {
        SingleSpacedAfterSpace(s, n);
        var tail := s[n + 1..];
        assert s[n..][1..] == tail;
        assert Split(s[n..]) == Split(tail);
        SingleSpacedFixpoint(tail);
        var rest := Split(tail);
        assert rest != [];
        assert ([t] + rest)[1..] == rest;
        assert JoinSpace([t] + rest) == t + " " + JoinSpace(rest);
        assert s == t + " " + tail;
      }
    }
  }

  lemma {:induction false} DigitsValueOfString(n: nat)
    ensures DigitsValue(NatToString(n)) == Some(n)
  {
    if n >= 10 {
      var s := NatToString(n);
      assert s[..|s| - 1] == NatToString(n / 10);
      DigitsValueOfString(n / 10);
    }
  }

  /** Reading back `str(n)` gives `n`. */
  lemma ParseNatToString(n: nat)
    ensures ParseNat(NatToString(n)) == Some(n)
  {
    DigitsValueOfString(n);
  }

  /** Only `str(n)` reads as `n`: together with `ParseNatToString`,
      `ParseNat(s) == Some(n)` exactly when `s == str(n)`. */
  lemma {:induction false} ParseNatCanonical(s: string, n: nat)
    requires ParseNat(s) == Some(n)
    ensures s == NatToString(n)
    decreases |s|
  {
    var c := s[|s| - 1];
    var d := (c as int) - ('0' as int);
    assert DigitChar(d) as int == c as int;
    if |s| > 1 {
      var p := s[..|s| - 1];
      var high := DigitsValue(p).value;
      assert p[0] == s[0];
      assert ParseNat(p) == Some(high);
      ParseNatCanonical(p, high);
      assert n / 10 == high && n % 10 == d;
      assert s == p + [c];
    }
  }

  /** `s.find(c)` for one character: the index of its first occurrence. */
  function Find(s: string, c: char): (k: Option<nat>)
    ensures k.Some? ==> k.value < |s| && s[k.value] == c && c !in s[..k.value]
    ensures k.None? ==> c !in s
  {
    if s == [] then None
    else if s[0] == c then Some(0)
    else
      match Find(s[1..], c)
      case None => None
      case Some(k) =>
        assert s[..k + 1] == [s[0]] + s[1..][..k];
        Some(k + 1)
  }

  /** No occurrence of `c` comes before one at position `j`. */
  lemma {:induction false} FindAtMost(s: string, c: char, j: nat)
    requires j < |s| && s[j] == c
    ensures Find(s, c).Some? && Find(s, c).value <= j
  {
    if s[0] != c {
      FindAtMost(s[1..], c, j - 1);
    }
  }

  /** In `prefix + [c] + rest` with no `c` in `prefix`, the first `c` is the one after the prefix. */
  lemma FindAfter(prefix: string, c: char, rest: string)
    requires c !in prefix
    ensures Find(prefix + [c] + rest, c) == Some(|prefix|)
    ensures (prefix + [c] + rest)[..|prefix|] == prefix
    ensures (prefix + [c] + rest)[|prefix| + 1..] == rest
  {
    var s := prefix + [c] + rest;
    FindAtMost(s, c, |prefix|);
    assert forall i :: 0 <= i < |prefix| ==> s[i] == prefix[i];
  }
}
