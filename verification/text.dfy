/**
 Python string primitives used by the parser, written out over `seq<char>`:
 `str.isspace`, `str.strip`, `str.startswith` and `str.split(",")`.
 */
module Text {

  /** Python's `str.isspace` restricted to the ASCII and Latin-1 range:
      the characters `str.strip()` removes there. */
  predicate IsSpace(c: char) {
    c == ' ' || c == '\t' || c == '\n' || c == '\r' || c == '\U{B}' || c == '\U{C}'
    || c == '\U{1C}' || c == '\U{1D}' || c == '\U{1E}' || c == '\U{1F}'
    || c == '\U{85}' || c == '\U{A0}'
  }

  predicate AllSpace(s: string) {
    forall k :: 0 <= k < |s| ==> IsSpace(s[k])
  }

  /** `s` has no whitespace at either end. */
  predicate IsTrimmed(s: string) {
    s == [] || (!IsSpace(s[0]) && !IsSpace(s[|s| - 1]))
  }

  /** `str.strip()`: drops whitespace from both ends. Nothing is left at
      either end, and the result is empty exactly when `s` is blank. */
  function Strip(s: string): (r: string)
    ensures IsTrimmed(r)
    ensures r == [] <==> AllSpace(s)
    decreases |s|
  {
    if |s| > 0 && IsSpace(s[0]) then
      var r := Strip(s[1..]);
      assert AllSpace(s[1..]) ==> AllSpace(s) by {
        if AllSpace(s[1..]) {
          forall k | 1 <= k < |s| ensures IsSpace(s[k]) { assert s[k] == s[1..][k - 1]; }
        }
      }
      r
    else if |s| > 0 && IsSpace(s[|s| - 1]) then
      Strip(s[..|s| - 1])
    else
      s
  }

  /** What `strip()` removed: whitespace before and after the result. */
  lemma {:induction false} StripSplit(s: string) returns (a: string, c: string)
    ensures s == a + Strip(s) + c
    ensures AllSpace(a) && AllSpace(c)
    decreases |s|
  {
    if |s| > 0 && IsSpace(s[0]) {
      var a', c' := StripSplit(s[1..]);
      assert Strip(s) == Strip(s[1..]);
      SpaceFront(s, a', Strip(s[1..]), c');
      a, c := [s[0]] + a', c';
    } else if |s| > 0 && IsSpace(s[|s| - 1]) {
      var a', c' := StripSplit(s[..|s| - 1]);
      assert Strip(s) == Strip(s[..|s| - 1]);
      SpaceBack(s, a', Strip(s[..|s| - 1]), c');
      a, c := a', c' + [s[|s| - 1]];
    } else {
      a, c := [], [];
    }
  }

  /** A space in front of a split of the rest. */
  lemma SpaceFront(s: string, a: string, t: string, c: string)
    requires |s| > 0 && IsSpace(s[0]) && s[1..] == a + t + c && AllSpace(a)
    ensures s == ([s[0]] + a) + t + c && AllSpace([s[0]] + a)
  {
    assert s == [s[0]] + s[1..];
    var a2 := [s[0]] + a;
    forall k | 0 <= k < |a2| ensures IsSpace(a2[k]) {
      if k > 0 { assert a2[k] == a[k - 1]; }
    }
  }

  /** A space behind a split of the rest. */
  lemma SpaceBack(s: string, a: string, t: string, c: string)
    requires |s| > 0 && IsSpace(s[|s| - 1]) && s[..|s| - 1] == a + t + c && AllSpace(c)
    ensures s == a + t + (c + [s[|s| - 1]]) && AllSpace(c + [s[|s| - 1]])
  {
    assert s == s[..|s| - 1] + [s[|s| - 1]];
    var c2 := c + [s[|s| - 1]];
    forall k | 0 <= k < |c2| ensures IsSpace(c2[k]) {
      if k < |c| { assert c2[k] == c[k]; }
    }
  }

  /** `strip()` only removes characters: what is not in `s` is not in the
      result. */
  lemma StripKeepsOut(s: string, ch: char)
    requires ch !in s
    ensures ch !in Strip(s)
  {
    var a, c := StripSplit(s);
    assert forall m :: 0 <= m < |Strip(s)| ==> Strip(s)[m] == s[|a| + m];
  }

  /** `s.startswith(p)`. */
  predicate StartsWith(s: string, p: string) {
    |p| <= |s| && s[..|p|] == p
  }

  /** Text that differs from `p` at position `k` does not start with `p`. */
  lemma PrefixMiss(t: string, p: string, k: nat)
    requires k < |p| && (k >= |t| || t[k] != p[k])
    ensures !StartsWith(t, p)
  {
    if |p| <= |t| {
      assert t[..|p|][k] == t[k];
    }
  }

  /** Text made of `p` and a remainder starts with `p`, and slicing `p`
      off gives the remainder back. */
  lemma PrefixRest(t: string, p: string, rest: string)
    requires t == p + rest
    ensures StartsWith(t, p) && t[|p|..] == rest
  {
    assert t[..|p|] == p;
  }

  /** Whitespace holds no comma. */
  lemma SpaceHasNoComma(s: string)
    requires AllSpace(s)
    ensures ',' !in s
  {
    assert forall k :: 0 <= k < |s| ==> s[k] != ',';
  }

  /** `Strip` is characterised by its result: whatever whitespace surrounds a
      trimmed string, stripping gives that string back. */
  lemma {:induction false} StripUnique(a: string, t: string, b: string)
    requires AllSpace(a) && AllSpace(b) && IsTrimmed(t)
    ensures Strip(a + t + b) == t
    decreases |a| + |b|
  {
    var s := a + t + b;
    if a != [] {
      assert s[0] == a[0];
      assert s[1..] == a[1..] + t + b;
      StripUnique(a[1..], t, b);
    } else if b != [] {
      assert s[|s| - 1] == b[|b| - 1];
      assert s[..|s| - 1] == a + t + b[..|b| - 1];
      if t == [] {
        assert s[0] == b[0];
        assert s[1..] == a + t + b[1..];
        StripUnique(a, t, b[1..]);
      } else {
        assert s[0] == t[0];
        StripUnique(a, t, b[..|b| - 1]);
      }
    } else {
      assert s == t;
    }
  }

  /** Stripping twice is stripping once. */
  lemma StripIdempotent(s: string)
    ensures Strip(Strip(s)) == Strip(s)
  {
    var r := Strip(s);
    assert [] + r + [] == r;
    StripUnique([], r, []);
  }

  /** A trimmed string is its own strip. */
  lemma StripTrimmed(t: string)
    requires IsTrimmed(t)
    ensures Strip(t) == t
  {
    assert AllSpace([]);
    StripUnique([], t, []);
    assert [] + t + [] == t;
  }

  /** Whitespace followed by whitespace is whitespace. */
  lemma AllSpaceConcat(a: string, b: string)
    requires AllSpace(a) && AllSpace(b)
    ensures AllSpace(a + b)
  {
    forall m | 0 <= m < |a + b| ensures IsSpace((a + b)[m]) {
      if m < |a| { assert (a + b)[m] == a[m]; } else { assert (a + b)[m] == b[m - |a|]; }
    }
  }

  /** Appending whitespace does not change what `strip()` returns. */
  lemma StripAppendSpace(s: string, b: string)
    requires AllSpace(b)
    ensures Strip(s + b) == Strip(s)
  {
    var a, c := StripSplit(s);
    AllSpaceConcat(c, b);
    assert s + b == a + Strip(s) + (c + b);
    StripUnique(a, Strip(s), c + b);
  }

  /** Prepending whitespace does not change what `strip()` returns. */
  lemma StripPrependSpace(a: string, s: string)
    requires AllSpace(a)
    ensures Strip(a + s) == Strip(s)
  {
    var b, c := StripSplit(s);
    AllSpaceConcat(a, b);
    assert a + s == (a + b) + Strip(s) + c;
    StripUnique(a + b, Strip(s), c);
  }

  /** Python's `s.split(sep)` for a one-character separator: never empty,
      the pieces hold no separator, and joining them gives `s` back. */
  function Split(s: string, sep: char): (r: seq<string>)
    ensures |r| >= 1
    ensures forall k :: 0 <= k < |r| ==> sep !in r[k]
    ensures Join(r, sep) == s
    decreases |s|
  {
    if |s| == 0 then [""]
    else
      var rest := Split(s[1..], sep);
      if s[0] == sep then
        assert [s[0]] + s[1..] == s;
        [""] + rest
      else
        var r := [[s[0]] + rest[0]] + rest[1..];
        JoinConsHead(s[0], rest, sep);
        assert [s[0]] + s[1..] == s;
        r
  }

  /** `sep.join(ps)`. */
  function Join(ps: seq<string>, sep: char): string
    requires |ps| >= 1
    decreases |ps|
  {
    if |ps| == 1 then ps[0] else ps[0] + [sep] + Join(ps[1..], sep)
  }

  lemma JoinConsHead(c: char, ps: seq<string>, sep: char)
    requires |ps| >= 1
    ensures Join([[c] + ps[0]] + ps[1..], sep) == [c] + Join(ps, sep)
  {
    var qs := [[c] + ps[0]] + ps[1..];
    assert qs[1..] == ps[1..];
  }

  /** A string free of the separator is one piece. */
  lemma {:induction false} SplitNoSep(a: string, sep: char)
    requires sep !in a
    ensures Split(a, sep) == [a]
    decreases |a|
  {
    if a != [] {
      SplitNoSep(a[1..], sep);
      assert [a[0]] + a[1..] == a;
    }
  }

  /** The separator after a separator-free head closes the first piece. */
  lemma {:induction false} SplitAfterPiece(a: string, t: string, sep: char)
    requires sep !in a
    ensures Split(a + [sep] + t, sep) == [a] + Split(t, sep)
    decreases |a|
  {
    if a == [] {
      assert a + [sep] + t == [sep] + t;
      assert ([sep] + t)[1..] == t;
    } else {
      var s := a + [sep] + t;
      assert s[1..] == a[1..] + [sep] + t;
      SplitAfterPiece(a[1..], t, sep);
      assert [a[0]] + a[1..] == a;
    }
  }

  /** Splitting undoes joining when no piece holds the separator. */
  lemma {:induction false} SplitJoin(ps: seq<string>, sep: char)
    requires |ps| >= 1
    requires forall k :: 0 <= k < |ps| ==> sep !in ps[k]
    ensures Split(Join(ps, sep), sep) == ps
    decreases |ps|
  {
    if |ps| == 1 {
      SplitNoSep(ps[0], sep);
    } else {
      SplitJoin(ps[1..], sep);
      SplitAfterPiece(ps[0], Join(ps[1..], sep), sep);
      assert [ps[0]] + ps[1..] == ps;
    }
  }
  /** Joining two lists of pieces is joining each and putting a separator
      between them. */
  lemma {:induction false} JoinConcat(ps: seq<string>, qs: seq<string>, sep: char)
    requires |ps| >= 1 && |qs| >= 1
    ensures Join(ps + qs, sep) == Join(ps, sep) + [sep] + Join(qs, sep)
    decreases |ps|
  {
    if |ps| == 1 {
      assert (ps + qs)[1..] == qs;
    } else {
      JoinConcat(ps[1..], qs, sep);
      assert (ps + qs)[1..] == ps[1..] + qs;
    }
  }

  /** A non-empty sequence is its first element and the rest. */
  lemma FirstAndRest<T>(s: seq<T>)
    requires s != []
    ensures [s[0]] + s[1..] == s
  {
  }

  /** A non-empty sequence is its front and its last element. */
  lemma InitAndLast<T>(s: seq<T>, n: nat)
    requires n + 1 == |s|
    ensures s[..n] + [s[n]] == s
  {
  }

  /** A character in neither part is not in their concatenation. */
  lemma NotInConcat(c: char, a: string, b: string)
    requires c !in a && c !in b
    ensures c !in a + b
  {
  }

  /** Two runs of separator-free pieces make one. */
  lemma NoSepConcat(ps: seq<string>, qs: seq<string>, sep: char)
    requires forall k :: 0 <= k < |ps| ==> sep !in ps[k]
    requires forall k :: 0 <= k < |qs| ==> sep !in qs[k]
    ensures forall k :: 0 <= k < |ps + qs| ==> sep !in (ps + qs)[k]
  {
    var r := ps + qs;
    forall k | 0 <= k < |r| ensures sep !in r[k] {
      if k >= |ps| { assert r[k] == qs[k - |ps|]; } else { assert r[k] == ps[k]; }
    }
  }

  /** Splitting at a separator splits each side on its own: `split` of
      `a + sep + b` is the pieces of `a` followed by the pieces of `b`. */
  lemma SplitConcat(a: string, b: string, sep: char)
    ensures Split(a + [sep] + b, sep) == Split(a, sep) + Split(b, sep)
  {
    var ps, qs := Split(a, sep), Split(b, sep);
    JoinConcat(ps, qs, sep);
    NoSepConcat(ps, qs, sep);
    SplitJoin(ps + qs, sep);
  }

  /** Separator-free text in front joins the first piece. */
  lemma SplitPrepend(w: string, t: string, sep: char)
    requires sep !in w
    ensures Split(w + t, sep) == [w + Split(t, sep)[0]] + Split(t, sep)[1..]
  {
    var ps := Split(t, sep);
    var qs := [w + ps[0]] + ps[1..];
    if |ps| > 1 {
      JoinConcat([w + ps[0]], ps[1..], sep);
      JoinConcat([ps[0]], ps[1..], sep);
      FirstAndRest(ps);
    } else {
      assert qs == [w + ps[0]];
    }
    assert Join(qs, sep) == w + t;
    NotInConcat(sep, w, ps[0]);
    NoSepConcat([w + ps[0]], ps[1..], sep);
    SplitJoin(qs, sep);
  }

  /** Separator-free text behind joins the last piece. */
  lemma SplitAppend(t: string, w: string, sep: char, n: nat)
    requires sep !in w && n == |Split(t, sep)| - 1
    ensures Split(t + w, sep) == Split(t, sep)[..n] + [Split(t, sep)[n] + w]
  {
    var ps := Split(t, sep);
    var qs := ps[..n] + [ps[n] + w];
    if n > 0 {
      JoinConcat(ps[..n], [ps[n] + w], sep);
      JoinConcat(ps[..n], [ps[n]], sep);
      InitAndLast(ps, n);
    } else {
      assert qs == [ps[n] + w];
    }
    assert Join(qs, sep) == t + w;
    NotInConcat(sep, ps[n], w);
    NoSepConcat(ps[..n], [ps[n] + w], sep);
    SplitJoin(qs, sep);
  }
}
