/** The few pieces of the Java library the engine's parsers depend on, stated
    as functions: `String.split` with a one-character pattern, `Integer.parseInt`,
    `String.substring` at either end, and 32-bit `int` wrap-around. `ShowInt`
    and `Join` are the printing inverses used to state the parsers' round trips. */
module JavaText {

  datatype Option<+T> = None | Some(value: T)

  const MinInt: int := -0x8000_0000
  const MaxInt: int := 0x7fff_ffff

  /** `x` fits in a Java `int`. */
  predicate IsInt(x: int) {
    MinInt <= x <= MaxInt
  }

  const Modulus: int := 0x1_0000_0000

  /** Java `int` arithmetic: the mathematical result brought into the signed
      range by adding or removing multiples of 2^32. */
  function Wrap(x: int): (r: int)
    ensures IsInt(r)
    ensures IsInt(x) ==> r == x
    decreases if x > MaxInt then x - MaxInt else if x < MinInt then MinInt - x else 0
  {
    if x > MaxInt then Wrap(x - Modulus)
    else if x < MinInt then Wrap(x + Modulus)
    else x
  }

  /** The wrapped value is the unique `int` that differs from the
      mathematical one by a multiple of 2^32, as in two's complement. */
  lemma {:induction false} WrapCongruent(x: int)
    ensures (Wrap(x) - x) % Modulus == 0
    ensures Wrap(x) == (x - MinInt) % Modulus + MinInt
    decreases if x > MaxInt then x - MaxInt else if x < MinInt then MinInt - x else 0
  {
    if x > MaxInt {
      WrapCongruent(x - Modulus);
    } else if x < MinInt {
      WrapCongruent(x + Modulus);
    }
  }

  // ---------------------------------------------------------------------------
  // String.split

  /** No character of `s` is one of the separators. */
  predicate NoSep(s: string, seps: set<char>) {
    forall i :: 0 <= i < |s| ==> s[i] !in seps
  }

  /** The pieces of `s` between separators, empty pieces included; a string
      with n separators has n + 1 pieces. */
  function SplitAll(s: string, seps: set<char>): (r: seq<string>)
    ensures |r| >= 1
    ensures forall k :: 0 <= k < |r| ==> NoSep(r[k], seps)
    decreases |s|
  {
    if |s| == 0 then [""]
    else
      var rest := SplitAll(s[1..], seps);
      if s[0] in seps then [""] + rest
      else [[s[0]] + rest[0]] + rest[1..]
  }

  /** Removes the empty pieces at the end of `ts`. */
  function DropTrailingEmpty(ts: seq<string>): (r: seq<string>)
    ensures r <= ts
    ensures |r| > 0 ==> r[|r| - 1] != ""
    ensures forall k :: |r| <= k < |ts| ==> ts[k] == ""
    decreases |ts|
  {
    if |ts| > 0 && ts[|ts| - 1] == "" then DropTrailingEmpty(ts[..|ts| - 1]) else ts
  }

  /** `s.split(p)` in Java, where the pattern `p` matches exactly one character
      of `seps` (such as ":|;" or ","): with no match the result is `[s]`;
      otherwise it is the pieces between matches, trailing empty pieces
      removed. */
  function Split(s: string, seps: set<char>): (r: seq<string>)
    ensures forall k :: 0 <= k < |r| ==> NoSep(r[k], seps)
    ensures !NoSep(s, seps) && |r| > 0 ==> r[|r| - 1] != ""
    ensures NoSep(s, seps) ==> |r| == 1
  {
    if NoSep(s, seps) then [s] else DropTrailingEmpty(SplitAll(s, seps))
  }

  /** The pieces `ts` glued back together with the separator `c`. */
  function Join(ts: seq<string>, c: char): string
    requires |ts| >= 1
    decreases |ts|
  {
    if |ts| == 1 then ts[0] else ts[0] + [c] + Join(ts[1..], c)
  }

  lemma {:induction false} SplitAllNoSep(s: string, seps: set<char>)
    requires NoSep(s, seps)
    ensures SplitAll(s, seps) == [s]
    decreases |s|
  {
    if |s| > 0 {
      assert NoSep(s[1..], seps) by {
        forall i | 0 <= i < |s| - 1 ensures s[1..][i] !in seps {
          assert s[1..][i] == s[i + 1];
        }
      }
      SplitAllNoSep(s[1..], seps);
      assert [s[0]] + s[1..] == s;
    }
  }

  /** A separator cuts the string into the pieces of its left and of its right. */
  lemma {:induction false} SplitAllAppend(a: string, c: char, b: string, seps: set<char>)
    requires c in seps
    ensures SplitAll(a + [c] + b, seps) == SplitAll(a, seps) + SplitAll(b, seps)
    decreases |a|
  {
    var s := a + [c] + b;
    if |a| == 0 {
      assert s == [c] + b;
      assert s[1..] == b;
    } else {
      assert s[0] == a[0];
      assert s[1..] == a[1..] + [c] + b;
      SplitAllAppend(a[1..], c, b, seps);
    }
  }

  predicate AllNoSep(ts: seq<string>, seps: set<char>) {
    forall k :: 0 <= k < |ts| ==> NoSep(ts[k], seps)
  }

  lemma {:induction false} SplitAllJoin(ts: seq<string>, c: char, seps: set<char>)
    requires |ts| >= 1 && c in seps && AllNoSep(ts, seps)
    ensures SplitAll(Join(ts, c), seps) == ts
    decreases |ts|
  {
    SplitAllNoSep(ts[0], seps);
    if |ts| > 1 {
      SplitAllAppend(ts[0], c, Join(ts[1..], c), seps);
      SplitAllJoin(ts[1..], c, seps);
      assert [ts[0]] + ts[1..] == ts;
    }
  }

  /** Splitting undoes joining, as long as no piece holds a separator and the
      last piece is not empty (Java would drop it). */
  lemma SplitJoin(ts: seq<string>, c: char, seps: set<char>)
    requires |ts| >= 1 && c in seps && AllNoSep(ts, seps)
    requires ts[|ts| - 1] != ""
    ensures Split(Join(ts, c), seps) == ts
  {
    if |ts| == 1 {
      assert Join(ts, c) == ts[0];
    } else {
      var s := Join(ts, c);
      assert s[|ts[0]|] == c;
      SplitAllJoin(ts, c, seps);
      assert DropTrailingEmpty(ts) == ts;
    }
  }

  /** The same, for a text that ends with a terminating separator `t`: the
      empty piece after `t` is dropped. */
  lemma SplitJoinTerminated(ts: seq<string>, c: char, t: char, seps: set<char>)
    requires |ts| >= 1 && c in seps && t in seps && AllNoSep(ts, seps)
    requires ts[|ts| - 1] != ""
    ensures Split(Join(ts, c) + [t], seps) == ts
  {
    var j := Join(ts, c);
    assert j + [t] == j + [t] + "";
    SplitAllAppend(j, t, "", seps);
    SplitAllJoin(ts, c, seps);
    assert SplitAll("", seps) == [""];
    assert (j + [t])[|j|] == t;
    assert DropTrailingEmpty(ts + [""]) == DropTrailingEmpty(ts) by {
      assert (ts + [""])[..|ts|] == ts;
    }
    assert DropTrailingEmpty(ts) == ts;
  }

  /** A joined text holds no separator other than the glue. */
  lemma {:induction false} JoinNoSep(ts: seq<string>, c: char, seps: set<char>)
    requires |ts| >= 1 && c !in seps && AllNoSep(ts, seps)
    ensures NoSep(Join(ts, c), seps)
    decreases |ts|
  {
    if |ts| > 1 {
      JoinNoSep(ts[1..], c, seps);
    }
  }

  // ---------------------------------------------------------------------------
  // String.substring

  /** `s.substring(1, s.length())`, which fails on the empty string. */
  function DropFirst(s: string): (r: Option<string>)
    ensures r.Some? <==> |s| > 0
    ensures r.Some? ==> [s[0]] + r.value == s
  {
    if |s| == 0 then None else Some(s[1..])
  }

  /** `s.substring(0, s.length() - 1)`, which fails on the empty string. */
  function DropLast(s: string): (r: Option<string>)
    ensures r.Some? <==> |s| > 0
    ensures r.Some? ==> r.value + [s[|s| - 1]] == s
  {
    if |s| == 0 then None else Some(s[..|s| - 1])
  }

  // ---------------------------------------------------------------------------
  // Integer.parseInt and its inverse

  predicate IsDigit(c: char) {
    '0' <= c <= '9'
  }

  predicate AllDigits(s: string) {
    forall i :: 0 <= i < |s| ==> IsDigit(s[i])
  }

  /** The decimal value of a digit string, most significant digit first. */
  function DigitsValue(s: string): nat
    requires AllDigits(s)
    decreases |s|
  {
    if |s| == 0 then 0 else DigitsValue(s[..|s| - 1]) * 10 + (s[|s| - 1] as int - '0' as int)
  }

  /** `Integer.parseInt(s)`: an optional '+' or '-', then at least one digit,
      and a value in the `int` range; anything else is a number-format failure. */
  function ParseInt(s: string): (r: Option<int>)
    ensures r.Some? ==> IsInt(r.value)
    ensures |s| == 0 || s == "-" || s == "+" ==> r.None?
    ensures r.Some? && s[0] == '-' ==> r.value <= 0
    ensures r.Some? && s[0] != '-' ==> r.value >= 0
  {
    if |s| == 0 then None
    else
      var digits := if s[0] == '-' || s[0] == '+' then s[1..] else s;
      if |digits| == 0 || !AllDigits(digits) then None
      else
        var v: int := if s[0] == '-' then -(DigitsValue(digits) as int) else DigitsValue(digits);
        if IsInt(v) then Some(v) else None
  }

  function DigitChar(d: int): (c: char)
    requires 0 <= d < 10
    ensures IsDigit(c) && c as int - '0' as int == d
  {
    ('0' as int + d) as char
  }

  /** The decimal digits of `n`, without leading zeros. */
  function ShowNat(n: nat): (s: string)
    ensures |s| > 0 && AllDigits(s)
    ensures DigitsValue(s) == n
    decreases n
  {
    if n < 10 then [DigitChar(n)]
    else
      var prefix := ShowNat(n / 10);
      var s := prefix + [DigitChar(n % 10)];
      assert s[..|s| - 1] == prefix;
      s
  }

  /** `Integer.toString(n)`: decimal, with a '-' for negative numbers. */
  function ShowInt(n: int): (s: string)
    ensures |s| > 0
    ensures forall i :: 0 <= i < |s| ==> IsDigit(s[i]) || s[i] == '-'
  {
    if n < 0 then "-" + ShowNat(-n) else ShowNat(n)
  }

  /** Parsing the printed form of an `int` gives the number back. */
  lemma ParseShowInt(n: int)
    requires IsInt(n)
    ensures ParseInt(ShowInt(n)) == Some(n)
  {
    if n < 0 {
      assert ShowInt(n)[1..] == ShowNat(-n);
    }
  }

  /** A printed number holds none of the characters `seps`, provided they are
      neither digits nor '-'. */
  lemma ShowIntNoSep(n: int, seps: set<char>)
    requires forall c :: c in seps ==> !IsDigit(c) && c != '-'
    ensures NoSep(ShowInt(n), seps)
  {
  }
}
