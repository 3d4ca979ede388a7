/** The Java `String` operations the Helix path scheme relies on, restricted
    to what it needs: prefix and substring tests, and `split` on the single
    character `/`. */
module JavaStrings {

  /** The path separator. */
  const Slash: char := '/'

  /** True if `s` holds no separator, so it is at most one path segment. */
  predicate SlashFree(s: string) {
    Slash !in s
  }

  predicate StartsWith(s: string, p: string) {
    |p| <= |s| && s[..|p|] == p
  }

  /** A prefix of a prefix is a prefix. */
  lemma StartsWithTrans(s: string, p: string, q: string)
    requires StartsWith(s, p) && StartsWith(p, q)
    ensures StartsWith(s, q)
  {
    assert s[..|q|] == s[..|p|][..|q|];
  }

  /** Appending text keeps every prefix. */
  lemma StartsWithExtend(s: string, q: string, x: string)
    requires StartsWith(s, q)
    ensures StartsWith(s + x, q)
  {
    assert (s + x)[..|q|] == s[..|q|];
  }

  /** `String.contains`: `p` occurs somewhere in `s`. */
  predicate Contains(s: string, p: string)
    decreases |s|
  {
    StartsWith(s, p) || (|s| > 0 && Contains(s[1..], p))
  }

  /** `p` occurs in `s` at position `k`: the positional reading of `contains`. */
  ghost predicate OccursAt(s: string, p: string, k: int) {
    0 <= k && k + |p| <= |s| && s[k..k + |p|] == p
  }

  /** The recursive scan finds `p` exactly when it occurs at some position. */
  lemma {:induction false} ContainsIffOccurs(s: string, p: string)
    ensures Contains(s, p) <==> exists k :: OccursAt(s, p, k)
    decreases |s|
  {
    if |s| > 0 {
      ContainsIffOccurs(s[1..], p);
    }
    if StartsWith(s, p) {
      assert OccursAt(s, p, 0);
    } else if |s| > 0 && Contains(s[1..], p) {
      var k :| OccursAt(s[1..], p, k);
      assert s[1..][k..k + |p|] == s[k + 1..k + 1 + |p|];
      assert OccursAt(s, p, k + 1);
    }
    if exists k :: OccursAt(s, p, k) {
      var k :| OccursAt(s, p, k);
      if k > 0 {
        assert s[1..][k - 1..k - 1 + |p|] == s[k..k + |p|];
        assert OccursAt(s[1..], p, k - 1);
      }
    }
  }

  /** Whatever surrounds it, `p` is found inside `a + p + b`. */
  lemma ContainsInfix(a: string, p: string, b: string)
    ensures Contains(a + p + b, p)
  {
    var s := a + p + b;
    assert s[|a|..|a| + |p|] == p;
    assert OccursAt(s, p, |a|);
    ContainsIffOccurs(s, p);
  }

  /** Glue segments back together with the separator between them. */
  function JoinSlash(xs: seq<string>): string
    decreases |xs|
  {
    if |xs| == 0 then ""
    else if |xs| == 1 then xs[0]
    else xs[0] + "/" + JoinSlash(xs[1..])
  }

  /** Joining a list of two or more pieces: the first, a separator, the rest. */
  lemma JoinUnfold(xs: seq<string>)
    requires |xs| > 1
    ensures JoinSlash(xs) == xs[0] + "/" + JoinSlash(xs[1..])
  {
  }

  /** Concatenation regroups freely. */
  lemma ConcatAssoc(a: string, b: string, c: string)
    ensures (a + b) + c == a + (b + c)
  {
  }

  /** The middle of a three-part concatenation is found where it was put. */
  lemma SliceOfConcat(x: string, y: string, z: string)
    ensures (x + y + z)[|x|..|x| + |y|] == y
  {
  }

  /** Prefixing text to the first piece prefixes it to the joined string. */
  lemma JoinPrefixFirst(c: string, xs: seq<string>)
    requires |xs| >= 1
    ensures JoinSlash([c + xs[0]] + xs[1..]) == c + JoinSlash(xs)
  {
    var ys := [c + xs[0]] + xs[1..];
    assert ys[0] == c + xs[0] && ys[1..] == xs[1..];
    if |xs| == 1 {
      assert |ys| == 1;
    } else {
      var tail := JoinSlash(xs[1..]);
      JoinUnfold(ys);
      assert JoinSlash(ys[1..]) == tail;
      assert JoinSlash(ys) == (c + xs[0]) + "/" + tail;
      JoinUnfold(xs);
      ConcatAssoc(c, xs[0] + "/", tail);
      assert (c + xs[0]) + "/" == c + (xs[0] + "/");
    }
  }

  /** Splits `s` at every separator and keeps every piece, empty ones
      included. `JoinSlash` undoes it, and `SplitJoin` shows it undoes
      `JoinSlash` on non-empty lists of single segments. */
  function SplitAll(s: string): (r: seq<string>)
    ensures |r| >= 1
    ensures forall k :: 0 <= k < |r| ==> SlashFree(r[k])
    ensures JoinSlash(r) == s
    decreases |s|
  {
    if |s| == 0 then [""]
    else
      var rest := SplitAll(s[1..]);
      if s[0] == Slash then
        assert s == "/" + s[1..];
        [""] + rest
      else
        var r := [[s[0]] + rest[0]] + rest[1..];
        assert r[1..] == rest[1..];
        JoinPrefixFirst([s[0]], rest);
        assert s == [s[0]] + s[1..];
        r
  }

  /** A string is a single segment exactly when it holds no separator. */
  lemma {:induction false} SplitSlashFree(x: string)
    ensures SlashFree(x) <==> SplitAll(x) == [x]
    decreases |x|
  {
    if |x| > 0 && SlashFree(x) {
      SplitSlashFree(x[1..]);
      assert [x[0]] + x[1..] == x;
    }
  }

  /** Splitting distributes over a separator: the pieces of `p + "/" + x` are
      the pieces of `p` followed by the pieces of `x`. */
  lemma {:induction false} SplitConcat(p: string, x: string)
    ensures SplitAll(p + "/" + x) == SplitAll(p) + SplitAll(x)
    decreases |p|
  {
    var s := p + "/" + x;
    if |p| == 0 {
      assert s[0] == Slash && s[1..] == x;
    } else {
      assert s[0] == p[0];
      assert s[1..] == p[1..] + "/" + x;
      SplitConcat(p[1..], x);
    }
  }

  /** Splitting undoes joining, for a non-empty list of single segments. */
  lemma {:induction false} SplitJoin(xs: seq<string>)
    requires |xs| >= 1
    requires forall k :: 0 <= k < |xs| ==> SlashFree(xs[k])
    ensures SplitAll(JoinSlash(xs)) == xs
    decreases |xs|
  {
    SplitSlashFree(xs[0]);
    if |xs| > 1 {
      SplitJoin(xs[1..]);
      SplitConcat(xs[0], JoinSlash(xs[1..]));
      assert xs == [xs[0]] + xs[1..];
    }
  }

  /** A rooted path `/<c>/<x>` splits into an empty piece, then `c`'s
      pieces, then `x`'s. */
  lemma SplitRooted(c: string, x: string)
    ensures SplitAll("/" + c + "/" + x) == [""] + SplitAll(c) + SplitAll(x)
  {
    assert "/" + c == "" + "/" + c;
    SplitConcat("", c);
    SplitConcat("/" + c, x);
  }

  /** Three single segments joined by separators split back into them: the
      case `SplitJoin([x, m, y])`, stated on the concatenation itself so that
      callers need not unfold `JoinSlash`. */
  lemma SplitThree(x: string, m: string, y: string)
    requires SlashFree(x) && SlashFree(m) && SlashFree(y)
    ensures SplitAll(x + "/" + m + "/" + y) == [x, m, y]
  {
    SplitConcat(x + "/" + m, y);
    SplitConcat(x, m);
    SplitSlashFree(x);
    SplitSlashFree(m);
    SplitSlashFree(y);
  }

  /** Joining distributes over concatenation of non-empty segment lists. */
  lemma {:induction false} JoinAppend(xs: seq<string>, ys: seq<string>)
    requires |xs| >= 1 && |ys| >= 1
    ensures JoinSlash(xs + ys) == JoinSlash(xs) + "/" + JoinSlash(ys)
    decreases |xs|
  {
    if |xs| == 1 {
      assert (xs + ys)[1..] == ys;
    } else {
      assert (xs + ys)[1..] == xs[1..] + ys;
      JoinAppend(xs[1..], ys);
    }
  }

  /** For a slash-free `x`, the text `"/" + x + "/"` occurs in `s` exactly
      when `x` is one of the pieces of `s` strictly between its first and
      its last. */
  lemma DelimitedSegment(s: string, x: string)
    requires SlashFree(x)
    ensures Contains(s, "/" + x + "/") <==>
            exists j :: 0 < j < |SplitAll(s)| - 1 && SplitAll(s)[j] == x
  {
    if Contains(s, "/" + x + "/") {
      var j := OccurrenceIsSegment(s, x);
    }
    if exists j :: 0 < j < |SplitAll(s)| - 1 && SplitAll(s)[j] == x {
      var j :| 0 < j < |SplitAll(s)| - 1 && SplitAll(s)[j] == x;
      SegmentIsOccurrence(s, x, j);
    }
  }

  lemma OccurrenceIsSegment(s: string, x: string) returns (j: int)
    requires SlashFree(x) && Contains(s, "/" + x + "/")
    ensures 0 < j < |SplitAll(s)| - 1 && SplitAll(s)[j] == x
  {
    var p := "/" + x + "/";
    ContainsIffOccurs(s, p);
    var k :| OccursAt(s, p, k);
    var a, b := s[..k], s[k + |p|..];
    assert s == a + p + b by {
      assert s == s[..k] + s[k..k + |p|] + s[k + |p|..];
    }
    assert a + p + b == a + "/" + (x + "/" + b) by {
      ConcatAssoc("/" + x, "/", b);
      ConcatAssoc("/", x, "/" + b);
      ConcatAssoc(x, "/", b);
      ConcatAssoc(a, p, b);
      ConcatAssoc(a, "/", x + "/" + b);
    }
    SplitConcat(a, x + "/" + b);
    SplitConcat(x, b);
    SplitSlashFree(x);
    assert SplitAll(s) == SplitAll(a) + [x] + SplitAll(b);
    j := |SplitAll(a)|;
  }

  lemma SegmentIsOccurrence(s: string, x: string, j: int)
    requires 0 < j < |SplitAll(s)| - 1 && SplitAll(s)[j] == x
    ensures Contains(s, "/" + x + "/")
  {
    var xs := SplitAll(s);
    assert xs == xs[..j] + ([x] + xs[j + 1..]);
    JoinAppend(xs[..j], [x] + xs[j + 1..]);
    JoinAppend([x], xs[j + 1..]);
    var a, b := JoinSlash(xs[..j]), JoinSlash(xs[j + 1..]);
    assert s == a + "/" + (x + "/" + b);
    assert s == a + ("/" + x + "/") + b;
    ContainsInfix(a, "/" + x + "/", b);
  }

  /** Removes the empty strings at the end of `xs`, as `String.split` does
      with the pieces it found. */
  function DropTrailingEmpty(xs: seq<string>): (r: seq<string>)
    ensures |r| <= |xs| && r == xs[..|r|]
    ensures forall k :: |r| <= k < |xs| ==> xs[k] == ""
    ensures |r| > 0 ==> r[|r| - 1] != ""
    decreases |xs|
  {
    if |xs| > 0 && xs[|xs| - 1] == "" then DropTrailingEmpty(xs[..|xs| - 1]) else xs
  }

  /** Java's `s.split("\\/")`: a string without separator comes back whole
      (even the empty string); otherwise the pieces with the trailing empty
      ones removed, the leading empty one kept. */
  function Split(s: string): (r: seq<string>)
    ensures SlashFree(s) ==> r == [s]
    ensures !SlashFree(s) ==> |r| <= |SplitAll(s)| && r == SplitAll(s)[..|r|]
    ensures !SlashFree(s) ==> forall k :: |r| <= k < |SplitAll(s)| ==> SplitAll(s)[k] == ""
    ensures !SlashFree(s) && |r| > 0 ==> r[|r| - 1] != ""
  {
    if SlashFree(s) then [s] else DropTrailingEmpty(SplitAll(s))
  }
}
