/** The java.lang.String operations the services rely on, over `string`
    (`seq<char>`): `contains`, `trim`, `trim().isEmpty()`, `split(",")`,
    `String.join` and ASCII case mapping. */
module Text {

  /** `s.startsWith(p)` */
  predicate StartsWith(s: string, p: string) {
    |p| <= |s| && s[..|p|] == p
  }

  predicate EndsWith(s: string, p: string) {
    |p| <= |s| && s[|s| - |p|..] == p
  }

  /** Whether `p` starts at `k` does not depend on text after it. */
  lemma StartsWithAppend(a: string, b: string, p: string, k: nat)
    requires k + |p| <= |a|
    ensures StartsWith((a + b)[k..], p) == StartsWith(a[k..], p)
  {
    assert (a + b)[k..][..|p|] == a[k..][..|p|];
  }

  /** `s.contains(needle)`: `needle` occurs in `s` as a contiguous piece. */
  predicate Contains(s: string, needle: string)
    decreases |s|
  {
    StartsWith(s, needle) || (|s| > 0 && Contains(s[1..], needle))
  }

  /** The recursive definition agrees with "occurs at some position". */
  lemma {:induction false} ContainsIff(s: string, needle: string)
    ensures Contains(s, needle) <==> exists i :: 0 <= i <= |s| && StartsWith(s[i..], needle)
    decreases |s|
  {
    if Contains(s, needle) {
      if !StartsWith(s, needle) {
        ContainsIff(s[1..], needle);
        var i :| 0 <= i <= |s[1..]| && StartsWith(s[1..][i..], needle);
        assert s[1..][i..] == s[i + 1..];
      } else {
        assert s[0..] == s;
      }
    }
    if exists i :: 0 <= i <= |s| && StartsWith(s[i..], needle) {
      var i :| 0 <= i <= |s| && StartsWith(s[i..], needle);
      if i == 0 {
        assert s[0..] == s;
      } else {
        assert s[1..][i - 1..] == s[i..];
        ContainsIff(s[1..], needle);
      }
    }
  }

  /** A piece found at position i makes `contains` true. */
  lemma ContainsAt(s: string, needle: string, i: nat)
    requires i <= |s| && StartsWith(s[i..], needle)
    ensures Contains(s, needle)
  {
    ContainsIff(s, needle);
  }

  /** `contains` is preserved by text added on either side. */
  lemma {:induction false} ContainsConcat(a: string, b: string, needle: string)
    requires Contains(a, needle) || Contains(b, needle)
    ensures Contains(a + b, needle)
  {
    ContainsIff(a, needle);
    ContainsIff(b, needle);
    if Contains(a, needle) {
      var i :| 0 <= i <= |a| && StartsWith(a[i..], needle);
      assert (a + b)[i..][..|needle|] == a[i..][..|needle|];
      ContainsAt(a + b, needle, i);
    } else {
      var i :| 0 <= i <= |b| && StartsWith(b[i..], needle);
      assert (a + b)[|a| + i..] == b[i..];
      ContainsAt(a + b, needle, |a| + i);
    }
  }

  /** A piece put between two texts is contained in the result. */
  lemma ContainsMiddle(a: string, x: string, b: string)
    ensures Contains(a + x + b, x)
  {
    assert (a + x + b)[|a|..][..|x|] == x;
    ContainsAt(a + x + b, x, |a|);
  }

  /** A suffix is contained in the string. */
  lemma EndsWithContains(s: string, p: string)
    requires EndsWith(s, p)
    ensures Contains(s, p)
  {
    assert s[|s| - |p|..][..|p|] == p;
    ContainsAt(s, p, |s| - |p|);
  }

  /** What a contained piece contains, the whole contains too. */
  lemma ContainsTransitive(a: string, b: string, c: string)
    requires Contains(a, b) && Contains(b, c)
    ensures Contains(a, c)
  {
    ContainsIff(a, b);
    ContainsIff(b, c);
    var i :| 0 <= i <= |a| && StartsWith(a[i..], b);
    var j :| 0 <= j <= |b| && StartsWith(b[j..], c);
    var w := a[i + j..][..|c|];
    forall t | 0 <= t < |c|
      ensures w[t] == c[t]
    {
      assert c[t] == b[j..][..|c|][t] == b[j + t];
      assert b[j + t] == a[i..][..|b|][j + t] == a[i + j + t];
    }
    assert w == c;
    ContainsAt(a, c, i + j);
  }

  /** Every string contains itself (and, with it, the empty string). */
  lemma ContainsSelf(s: string)
    ensures Contains(s, s) && Contains(s, "")
  {
  }

  /** Java's `trim()` removes every leading and trailing char <= U+0020. */
  predicate IsSpace(c: char) {
    c <= ' '
  }

  /** Position `i` of `s` holds a character `trim` removes. */
  predicate BlankAt(s: string, i: int) {
    0 <= i < |s| && IsSpace(s[i])
  }

  /** The first position at or after `i` that `trim` keeps (or `|s|`). */
  function LeadEnd(s: string, i: nat): (k: nat)
    requires i <= |s|
    ensures i <= k <= |s|
    ensures forall j :: i <= j < k ==> BlankAt(s, j)
    ensures !BlankAt(s, k)
    decreases |s| - i
  {
    if BlankAt(s, i) then LeadEnd(s, i + 1) else i
  }

  /** One past the last position before `j` that `trim` keeps (or 0). */
  function TailStart(s: string, j: nat): (k: nat)
    requires j <= |s|
    ensures k <= j
    ensures forall i :: k <= i < j ==> BlankAt(s, i)
    ensures !BlankAt(s, k - 1)
  {
    if BlankAt(s, j - 1) then TailStart(s, j - 1) else j
  }

  /** `s.trim()`: the text between the outer runs of spaces. */
  function Trim(s: string): (r: string)
    ensures |r| <= |s|
    ensures r == [] || (!IsSpace(r[0]) && !IsSpace(r[|r| - 1]))
  {
    var lo := LeadEnd(s, 0);
    if lo == |s| then ""
    else
      var hi := TailStart(s, |s|);
      assert !BlankAt(s, lo);
      s[lo..hi]
  }

  /** `s.trim().isEmpty()` */
  predicate IsBlank(s: string) {
    Trim(s) == []
  }

  /** A string is blank iff every character is a space. */
  lemma IsBlankIff(s: string)
    ensures IsBlank(s) <==> forall i :: 0 <= i < |s| ==> IsSpace(s[i])
  {
    var lo := LeadEnd(s, 0);
    if forall i :: 0 <= i < |s| ==> IsSpace(s[i]) {
      assert lo < |s| ==> BlankAt(s, lo);
    }
    if IsBlank(s) {
      forall i | 0 <= i < |s|
        ensures IsSpace(s[i])
      {
        assert BlankAt(s, i);
      }
    }
  }

  /** Trimming a string with no outer spaces changes nothing; so trim is idempotent. */
  lemma TrimNoop(s: string)
    requires s == [] || (!IsSpace(s[0]) && !IsSpace(s[|s| - 1]))
    ensures Trim(s) == s
  {
  }

  lemma TrimIdempotent(s: string)
    ensures Trim(Trim(s)) == Trim(s)
  {
    TrimNoop(Trim(s));
  }

  /** `s.split(String.valueOf(sep), -1)`: every piece, empty ones included.
      (Java's one-argument `split` also drops trailing empty pieces; every
      caller here trims and drops empty pieces afterwards, so the difference
      never shows.) */
  function Split(s: string, sep: char): (r: seq<string>)
    ensures |r| >= 1
    ensures forall k :: 0 <= k < |r| ==> sep !in r[k]
  {
    if |s| == 0 then [""]
    else
      var rest := Split(s[1..], sep);
      if s[0] == sep then [""] + rest else [[s[0]] + rest[0]] + rest[1..]
  }

  /** `String.join(sep, xs)` */
  function Join(sep: string, xs: seq<string>): string {
    if |xs| == 0 then ""
    else if |xs| == 1 then xs[0]
    else xs[0] + sep + Join(sep, xs[1..])
  }

  /** Joining two non-empty lists puts one separator between the parts. */
  lemma {:induction false} JoinConcat(sep: string, xs: seq<string>, ys: seq<string>)
    requires |xs| >= 1 && |ys| >= 1
    ensures Join(sep, xs + ys) == Join(sep, xs) + sep + Join(sep, ys)
  {
    if |xs| == 1 {
      assert (xs + ys)[1..] == ys;
    } else {
      assert (xs + ys)[1..] == xs[1..] + ys;
      JoinConcat(sep, xs[1..], ys);
    }
  }

  /** Splitting undoes joining when no item holds the separator. */
  lemma {:induction false} SplitJoin(xs: seq<string>, sep: char)
    requires |xs| >= 1
    requires forall k :: 0 <= k < |xs| ==> sep !in xs[k]
    ensures Split(Join([sep], xs), sep) == xs
  {
    if |xs| == 1 {
      SplitNoSep(xs[0], sep);
    } else {
      var rest := Join([sep], xs[1..]);
      assert Join([sep], xs) == xs[0] + [sep] + rest;
      SplitJoin(xs[1..], sep);
      SplitPrefix(xs[0], rest, sep);
      assert [xs[0]] + xs[1..] == xs;
    }
  }

  /** A string without the separator is one piece. */
  lemma {:induction false} SplitNoSep(s: string, sep: char)
    requires sep !in s
    ensures Split(s, sep) == [s]
  {
    if |s| > 0 {
      SplitNoSep(s[1..], sep);
      assert [s[0]] + s[1..] == s;
    }
  }

  /** A separator-free head followed by a separator starts a new piece. */
  lemma {:induction false} SplitPrefix(a: string, b: string, sep: char)
    requires sep !in a
    ensures Split(a + [sep] + b, sep) == [a] + Split(b, sep)
  {
    if |a| == 0 {
      assert a + [sep] + b == [sep] + b;
      assert ([sep] + b)[1..] == b;
    } else {
      assert (a + [sep] + b)[1..] == a[1..] + [sep] + b;
      SplitPrefix(a[1..], b, sep);
      assert [a[0]] + a[1..] == a;
    }
  }

  /** Joining the pieces with the separator gives the string back. */
  lemma {:induction false} JoinSplit(s: string, sep: char)
    ensures Join([sep], Split(s, sep)) == s
  {
    if |s| > 0 {
      JoinSplit(s[1..], sep);
      var rest := Split(s[1..], sep);
      if s[0] == sep {
        assert [sep] + s[1..] == s;
      } else {
        if |rest| == 1 {
          assert [s[0]] + rest[0] == s;
        } else {
          assert rest == [rest[0]] + rest[1..];
          assert Join([sep], rest) == rest[0] + [sep] + Join([sep], rest[1..]);
          assert ([[s[0]] + rest[0]] + rest[1..])[1..] == rest[1..];
          assert [s[0]] + s[1..] == s;
        }
      }
    }
  }

  /** `toLowerCase()` / `toUpperCase()` on the ASCII letters; other characters
      (Hangul among them) have no case and are kept. */
  function LowerChar(c: char): char {
    if 'A' <= c <= 'Z' then (c as int + 32) as char else c
  }

  function UpperChar(c: char): char {
    if 'a' <= c <= 'z' then (c as int - 32) as char else c
  }

  function ToLower(s: string): (r: string)
    ensures |r| == |s|
    ensures forall i :: 0 <= i < |s| ==> r[i] == LowerChar(s[i])
  {
    if |s| == 0 then "" else [LowerChar(s[0])] + ToLower(s[1..])
  }

  function ToUpper(s: string): (r: string)
    ensures |r| == |s|
    ensures forall i :: 0 <= i < |s| ==> r[i] == UpperChar(s[i])
  {
    if |s| == 0 then "" else [UpperChar(s[0])] + ToUpper(s[1..])
  }

  /** An item as the trim-and-drop pipeline leaves it: non-empty, no outer spaces. */
  predicate IsCleanItem(s: string) {
    s != "" && Trim(s) == s
  }

  /** Items trimmed and empty results dropped, in order: the
      `.map(String::trim).filter(s -> !s.isEmpty())` pipeline. */
  function TrimAndDropEmpty(xs: seq<string>): (r: seq<string>)
    ensures |r| <= |xs|
    ensures forall k :: 0 <= k < |r| ==> IsCleanItem(r[k])
  {
    if |xs| == 0 then []
    else
      var t := Trim(xs[0]);
      var rest := TrimAndDropEmpty(xs[1..]);
      if t == "" then rest
      else
        TrimIdempotent(xs[0]);
        assert IsCleanItem(t);
        [t] + rest
  }

  /** On items that are already clean the pipeline changes nothing. */
  lemma {:induction false} TrimAndDropEmptyNoop(xs: seq<string>)
    requires forall k :: 0 <= k < |xs| ==> IsCleanItem(xs[k])
    ensures TrimAndDropEmpty(xs) == xs
  {
    if |xs| > 0 {
      assert IsCleanItem(xs[0]);
      TrimAndDropEmptyNoop(xs[1..]);
    }
  }
}
