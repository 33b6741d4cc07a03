/** The string operations the program relies on, written out on characters. */
module Text {
  /** The characters that an argument-less `strip()` removes. */
  predicate IsSpace(c: char) {
    var u := c as int;
    || 0x09 <= u <= 0x0D || 0x1C <= u <= 0x20 || u == 0x85 || u == 0xA0 || u == 0x1680
    || 0x2000 <= u <= 0x200A || u == 0x2028 || u == 0x2029 || u == 0x202F || u == 0x205F || u == 0x3000
  }

  predicate IsSlash(c: char) { c == '/' }

  function LeftStrip(s: string, drop: char -> bool): string {
    if s != [] && drop(s[0]) then LeftStrip(s[1..], drop) else s
  }

  function RightStrip(s: string, drop: char -> bool): string {
    if s != [] && drop(s[|s| - 1]) then RightStrip(s[..|s| - 1], drop) else s
  }

  /** `strip(chars)`. */
  function StripBy(s: string, drop: char -> bool): string {
    RightStrip(LeftStrip(s, drop), drop)
  }

  function Strip(s: string): string { StripBy(s, IsSpace) }

  function StripSlashes(s: string): string { StripBy(s, IsSlash) }

  lemma {:induction false} LeftStripSuffix(s: string, drop: char -> bool)
    ensures var r := LeftStrip(s, drop); |r| <= |s| && r == s[|s| - |r|..] && (r != [] ==> !drop(r[0]))
  {
    if s != [] && drop(s[0]) {
      LeftStripSuffix(s[1..], drop);
    }
  }

  lemma {:induction false} RightStripPrefix(s: string, drop: char -> bool)
    ensures var r := RightStrip(s, drop); r <= s && (r != [] ==> !drop(r[|r| - 1]))
  {
    if s != [] && drop(s[|s| - 1]) {
      RightStripPrefix(s[..|s| - 1], drop);
    }
  }

  /** Stripping leaves a part of the string with no dropped character at either end. */
  lemma StripProperties(s: string, drop: char -> bool)
    ensures var r := StripBy(s, drop);
      && (r != [] ==> !drop(r[0]) && !drop(r[|r| - 1]))
      && |r| <= |s|
      && (forall c :: c in r ==> c in s)
  {
    var l := LeftStrip(s, drop);
    LeftStripSuffix(s, drop);
    RightStripPrefix(l, drop);
    forall c | c in StripBy(s, drop)
      ensures c in s
    {
      assert c in l;
    }
  }

  lemma StripUnchanged(s: string, drop: char -> bool)
    requires s != [] ==> !drop(s[0]) && !drop(s[|s| - 1])
    ensures StripBy(s, drop) == s
  {}

  /**
   * What stands before a part that is not stripped away entirely stays, and so does a part that ends in a kept
   * character.
   */
  lemma {:induction false} RightStripAppend(x: string, y: string, drop: char -> bool)
    ensures RightStrip(x + y, drop) == if RightStrip(y, drop) != [] then x + RightStrip(y, drop)
              else RightStrip(x, drop)
    decreases |y|
  {
    if y == [] {
      assert x + y == x;
    } else if drop(y[|y| - 1]) {
      assert (x + y)[..|x + y| - 1] == x + y[..|y| - 1];
      RightStripAppend(x, y[..|y| - 1], drop);
    }
  }

  /** The string without what `strip` drops on the left, and what it drops there. */
  lemma {:induction false} LeftStripSplit(s: string, drop: char -> bool) returns (before: string)
    ensures s == before + LeftStrip(s, drop) && RightStrip(before, drop) == []
    ensures before != [] <==> s != [] && drop(s[0])
  {
    before := [];
    if s != [] && drop(s[0]) {
      var more := LeftStripSplit(s[1..], drop);
      before := [s[0]] + more;
      RightStripAppend([s[0]], more, drop);
      assert s == [s[0]] + s[1..];
    }
  }

  predicate StartsWith(s: string, p: string) { p <= s }

  predicate EndsWith(s: string, p: string) { |p| <= |s| && s[|s| - |p|..] == p }

  lemma EndsWithLast(s: string, p: string)
    requires EndsWith(s, p) && p != []
    ensures s != [] && s[|s| - 1] == p[|p| - 1]
  {
    assert s[|s| - |p|..][|p| - 1] == s[|s| - 1];
  }

  predicate OccursAt(s: string, p: string, i: nat) { i + |p| <= |s| && s[i..i + |p|] == p }

  /** `p in s` for strings. */
  predicate Contains(s: string, p: string) {
    exists i | 0 <= i <= |s| :: OccursAt(s, p, i)
  }

  /** A part occurs exactly when the string can be split around it. */
  lemma ContainsIff(s: string, p: string)
    ensures Contains(s, p) <==> exists x, y :: s == x + p + y
  {
    if i :| 0 <= i <= |s| && OccursAt(s, p, i) {
      assert s == s[..i] + p + s[i + |p|..];
    }
    if x, y :| s == x + p + y {
      assert s[|x|..|x| + |p|] == p;
      assert OccursAt(s, p, |x|);
    }
  }

  lemma StartsWithIff(s: string, p: string)
    ensures StartsWith(s, p) <==> exists y :: s == p + y
  {
    if StartsWith(s, p) {
      assert s == p + s[|p|..];
    }
  }

  lemma EndsWithIff(s: string, p: string)
    ensures EndsWith(s, p) <==> exists x :: s == x + p
  {
    if EndsWith(s, p) {
      assert s == s[..|s| - |p|] + p;
    }
    if x :| s == x + p {
      assert s[|s| - |p|..] == p;
    }
  }

  /** `r` starts and ends with kept characters, if it has any. */
  predicate IsClean(r: string, drop: char -> bool) { r != [] ==> !drop(r[0]) && !drop(r[|r| - 1]) }

  predicate AllDropped(s: string, drop: char -> bool) { forall i | 0 <= i < |s| :: drop(s[i]) }

  ghost predicate StripsTo(s: string, r: string, drop: char -> bool) {
    exists x, y :: s == x + r + y && AllDropped(x, drop) && AllDropped(y, drop) && IsClean(r, drop)
  }

  lemma {:induction false} RightStripSplit(s: string, drop: char -> bool) returns (after: string)
    ensures s == RightStrip(s, drop) + after && AllDropped(after, drop)
  {
    after := [];
    if s != [] && drop(s[|s| - 1]) {
      var more := RightStripSplit(s[..|s| - 1], drop);
      after := more + [s[|s| - 1]];
      assert s == s[..|s| - 1] + [s[|s| - 1]];
    }
  }

  lemma {:induction false} RightStripDropped(s: string, drop: char -> bool)
    requires AllDropped(s, drop)
    ensures RightStrip(s, drop) == []
  {
    if s != [] {
      RightStripDropped(s[..|s| - 1], drop);
    }
  }

  lemma {:induction false} LeftStripSkips(x: string, s: string, drop: char -> bool)
    requires AllDropped(x, drop)
    ensures LeftStrip(x + s, drop) == LeftStrip(s, drop)
  {
    if x == [] {
      assert x + s == s;
    } else {
      assert (x + s)[1..] == x[1..] + s;
      LeftStripSkips(x[1..], s, drop);
    }
  }

  lemma {:induction false} LeftStripSplitDropped(s: string, drop: char -> bool) returns (before: string)
    ensures s == before + LeftStrip(s, drop) && AllDropped(before, drop)
  {
    before := [];
    if s != [] && drop(s[0]) {
      var more := LeftStripSplitDropped(s[1..], drop);
      before := [s[0]] + more;
      assert s == [s[0]] + s[1..];
    }
  }

  /** `strip` drops as much as it can at both ends, and nothing else: its result is the only one of that kind. */
  lemma StripIff(s: string, r: string, drop: char -> bool)
    ensures StripsTo(s, r, drop) <==> r == StripBy(s, drop)
  {
    var l := LeftStrip(s, drop);
    var before := LeftStripSplitDropped(s, drop);
    var after := RightStripSplit(l, drop);
    StripProperties(s, drop);
    assert s == before + StripBy(s, drop) + after;
    assert StripsTo(s, StripBy(s, drop), drop);
    if x, y :| s == x + r + y && AllDropped(x, drop) && AllDropped(y, drop) && IsClean(r, drop) {
      StripOfParts(x, r, y, drop);
    }
  }

  lemma StripOfParts(x: string, r: string, y: string, drop: char -> bool)
    requires AllDropped(x, drop) && AllDropped(y, drop) && IsClean(r, drop)
    ensures StripBy(x + r + y, drop) == r
  {
    assert x + r + y == x + (r + y);
    LeftStripSkips(x, r + y, drop);
    RightStripDropped(y, drop);
    if r == [] {
      assert r + y == y && y + [] == y;
      LeftStripSkips(y, [], drop);
    } else {
      assert (r + y)[0] == r[0];
      RightStripAppend(r, y, drop);
    }
  }

  /** Applies a per-character case mapping: lower(), casefold(), or the matching of IGNORECASE. */
  function Fold(s: string, f: char -> char): (r: string)
    ensures |r| == |s|
    ensures forall i :: 0 <= i < |s| ==> r[i] == f(s[i])
  {
    seq(|s|, i requires 0 <= i < |s| => f(s[i]))
  }

  lemma FoldConcat(a: string, b: string, f: char -> char)
    ensures Fold(a + b, f) == Fold(a, f) + Fold(b, f)
  {}

  function Reverse(s: string): (r: string)
    ensures |r| == |s|
    ensures forall i :: 0 <= i < |s| ==> r[i] == s[|s| - 1 - i]
  {
    seq(|s|, i requires 0 <= i < |s| => s[|s| - 1 - i])
  }

  lemma ReverseInvolution(s: string)
    ensures Reverse(Reverse(s)) == s
  {}

  /** Reading backwards turns suffixes into prefixes. */
  lemma ReversePrefix(s: string, p: string)
    ensures Reverse(p) <= Reverse(s) <==> EndsWith(s, p)
  {
    if EndsWith(s, p) {
      assert Reverse(p) == Reverse(s)[..|p|];
    }
    if Reverse(p) <= Reverse(s) {
      assert |p| <= |s|;
      forall i | 0 <= i < |p|
        ensures s[|s| - |p|..][i] == p[i]
      {
        assert Reverse(p)[|p| - 1 - i] == p[i];
        assert Reverse(s)[|p| - 1 - i] == s[|s| - |p| + i];
      }
    }
  }

  /** `s.rsplit("/", 1)[-1]`: what follows the last slash. */
  function Basename(s: string): string {
    if s == [] || s[|s| - 1] == '/' then [] else Basename(s[..|s| - 1]) + [s[|s| - 1]]
  }

  /** `name` has no slash and is all of `s` or what follows a slash of `s` to its end. */
  predicate IsBasename(s: string, name: string) {
    '/' !in name && (s == name || EndsWith(s, "/" + name))
  }

  /** Every string has exactly one base name. */
  lemma {:induction false} BasenameIff(s: string, name: string)
    ensures IsBasename(s, name) <==> name == Basename(s)
  {
    if s == [] || s[|s| - 1] == '/' {
      if name != [] {
        assert name[|name| - 1] in name;
        assert EndsWith(s, "/" + name) ==> s[|s| - 1] == ("/" + name)[|name|];
      } else {
        if s != [] {
          EndsWithSlash(s);
        }
      }
    } else {
      var n := |s| - 1;
      assert s == s[..n] + [s[n]];
      BasenameIff(s[..n], if name == [] then [] else name[..|name| - 1]);
      if name == [] {
        EndsWithSlash(s);
      } else {
        LastOfBasename(s, name);
      }
    }
  }

  lemma EndsWithSlash(s: string)
    requires s != []
    ensures EndsWith(s, "/") <==> s[|s| - 1] == '/'
  {
    assert s[|s| - 1..] == [s[|s| - 1]];
  }

  lemma LastOfBasename(s: string, name: string)
    requires s != [] && s[|s| - 1] != '/' && name != []
    ensures IsBasename(s, name) <==> name[|name| - 1] == s[|s| - 1] && IsBasename(s[..|s| - 1], name[..|name| - 1])
  {
    var n, k := |s| - 1, |name| - 1;
    assert s == s[..n] + [s[n]] && name == name[..k] + [name[k]];
    assert "/" + name == ("/" + name[..k]) + [name[k]];
    if EndsWith(s, "/" + name) {
      assert s[|s| - |"/" + name|..] == "/" + name;
      assert s[n] == ("/" + name)[|name|] == name[k];
      assert s[..n][n - |"/" + name[..k]|..] == s[|s| - |"/" + name|..][..|name|];
      assert ("/" + name)[..|name|] == "/" + name[..k];
    }
    if EndsWith(s[..n], "/" + name[..k]) && name[k] == s[n] {
      assert s[|s| - |"/" + name|..] == s[..n][n - |"/" + name[..k]|..] + [s[n]];
    }
  }

  function Digit(d: nat): (c: char)
    requires d < 10
    ensures '0' <= c <= '9' && c as int == '0' as int + d
  {
    ('0' as int + d) as char
  }

  /** `str(n)`. */
  function Decimal(n: nat): (s: string)
    ensures s != [] && forall i :: 0 <= i < |s| ==> '0' <= s[i] <= '9'
  {
    if n < 10 then [Digit(n)] else Decimal(n / 10) + [Digit(n % 10)]
  }

  /** The number that a string of digits stands for. */
  function ValueOf(s: string): nat
    requires forall i :: 0 <= i < |s| ==> '0' <= s[i] <= '9'
  {
    if s == [] then 0 else 10 * ValueOf(s[..|s| - 1]) + (s[|s| - 1] as int - '0' as int)
  }

  /** `str(n)` is the decimal notation of `n`, without leading zeros. */
  lemma {:induction false} DecimalValue(n: nat)
    ensures ValueOf(Decimal(n)) == n && (n > 0 ==> Decimal(n)[0] != '0')
  {
    DecimalParts(n);
    if n >= 10 {
      DecimalValue(n / 10);
    }
  }

  lemma {:induction false} DecimalInjective(m: nat, n: nat)
    requires Decimal(m) == Decimal(n)
    ensures m == n
  {
    DecimalParts(m);
    DecimalParts(n);
    if m >= 10 && n >= 10 {
      DecimalInjective(m / 10, n / 10);
    }
  }

  lemma DecimalParts(n: nat)
    ensures var s := Decimal(n);
      s[|s| - 1] == Digit(n % 10) && s[..|s| - 1] == (if n < 10 then [] else Decimal(n / 10))
  {}

  /** `sep.join(parts)`. */
  function Join(sep: string, parts: seq<string>): string {
    if parts == [] then [] else if |parts| == 1 then parts[0] else parts[0] + sep + Join(sep, parts[1..])
  }
}
