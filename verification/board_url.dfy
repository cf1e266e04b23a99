/**
 `extract_board_id_from_url`: the leftmost match of the regular expression
 `trello\.com/(b|board)/([\w\d]+)/?` in a board URL, returning group 2.
 `\w` is taken over ASCII (letters, digits and `_`).
 */
module BoardUrl {
  import opened Wrappers
  import opened Text

  const ShortPrefix: string := "trello.com/b/"
  const LongPrefix: string := "trello.com/board/"

  /** `[\w\d]` over ASCII. */
  predicate IsWordChar(c: char) {
    ('a' <= c <= 'z') || ('A' <= c <= 'Z') || ('0' <= c <= '9') || c == '_'
  }

  predicate AllWord(s: string) {
    forall k :: 0 <= k < |s| ==> IsWordChar(s[k])
  }

  /** The greedy `[\w\d]*`: the longest prefix of `s` made of word characters. */
  function WordRun(s: string): (r: string)
    ensures |r| <= |s| && r == s[..|r|]
    ensures AllWord(r)
    ensures |r| == |s| || !IsWordChar(s[|r|])
    decreases |s|
  {
    if |s| > 0 && IsWordChar(s[0]) then
      var rest := WordRun(s[1..]);
      assert [s[0]] + s[1..][..|rest|] == s[..|rest| + 1];
      [s[0]] + rest
    else []
  }

  /** The regular expression anchored at position `p`: alternative `b` is
      tried first, then `board`; `/?` always succeeds, so the group is the
      whole word run after the prefix and must be non-empty. */
  function MatchAt(url: string, p: nat): (r: Option<string>)
    requires p <= |url|
    ensures r.Some? ==> r.value != [] && AllWord(r.value)
  {
    var rest := url[p..];
    if StartsWith(rest, ShortPrefix) && WordRun(rest[|ShortPrefix|..]) != [] then
      Some(WordRun(rest[|ShortPrefix|..]))
    else if StartsWith(rest, LongPrefix) && WordRun(rest[|LongPrefix|..]) != [] then
      Some(WordRun(rest[|LongPrefix|..]))
    else None
  }

  /** `re.search` from position `from` on: the match at the first position
      that has one. */
  function Search(url: string, from: nat): (r: Option<string>)
    requires from <= |url| + 1
    ensures r.Some? ==> r.value != [] && AllWord(r.value)
    decreases |url| + 1 - from
  {
    if from > |url| then None
    else if MatchAt(url, from).Some? then MatchAt(url, from)
    else Search(url, from + 1)
  }

  /** A match `Search` returns was found at the leftmost matching
      position from `from` on. */
  lemma {:induction false} SearchPosition(url: string, from: nat) returns (p: nat)
    requires from <= |url| + 1 && Search(url, from).Some?
    ensures from <= p <= |url| && MatchAt(url, p) == Search(url, from)
    ensures forall q :: from <= q < p ==> MatchAt(url, q).None?
    decreases |url| + 1 - from
  {
    if MatchAt(url, from).Some? {
      p := from;
    } else {
      assert Search(url, from) == Search(url, from + 1);
      p := SearchPosition(url, from + 1);
      forall q | from <= q < p
        ensures MatchAt(url, q).None?
      {
        if q == from {
        }
      }
    }
  }

  /** When `Search` finds nothing, no position from `from` on matches. */
  lemma {:induction false} SearchMisses(url: string, from: nat)
    requires from <= |url| + 1 && Search(url, from).None?
    ensures forall q :: from <= q <= |url| ==> MatchAt(url, q).None?
    decreases |url| + 1 - from
  {
    if from <= |url| {
      assert MatchAt(url, from).None?;
      assert Search(url, from) == Search(url, from + 1);
      SearchMisses(url, from + 1);
    }
  }

  /** `Search` finds nothing exactly when no position from `from` on
      matches. */
  lemma SearchNone(url: string, from: nat)
    requires from <= |url| + 1
    ensures Search(url, from).None? <==> forall q :: from <= q <= |url| ==> MatchAt(url, q).None?
  {
    if Search(url, from).None? {
      SearchMisses(url, from);
    } else {
      var p := SearchPosition(url, from);
    }
  }

  /** The board short id of a board URL, or None (where the source also logs
      an error). */
  function ExtractBoardId(url: string): (r: Option<string>)
    ensures r.Some? ==> r.value != [] && AllWord(r.value)
  {
    Search(url, 0)
  }

  /** Declarative reading of one match: at `p` the URL reads
      `trello.com/<seg>/<id>` with `seg` one of `b` or `board`, `id` a
      non-empty run of word characters that is not followed by another. */
  ghost predicate IsMatch(url: string, p: nat, id: string) {
    exists seg :: (seg == "b" || seg == "board") && IsMatchWith(url, p, seg, id)
  }

  ghost predicate IsMatchWith(url: string, p: nat, seg: string, id: string) {
    var head := "trello.com/" + seg + "/";
    p + |head| <= |url| && url[p..p + |head|] == head && IsRunAt(url, p + |head|, id)
  }

  /** At `start` the URL holds the non-empty word run `id`, not followed by
      another word character. */
  ghost predicate IsRunAt(url: string, start: nat, id: string) {
    var e := start + |id|;
    e <= |url| && url[start..e] == id && id != [] && AllWord(id)
    && (e == |url| || !IsWordChar(url[e]))
  }

  /** A word run followed by a non-word character (or the end) is exactly
      what `WordRun` returns. */
  lemma {:induction false} WordRunUnique(s: string, id: string)
    requires |id| <= |s| && s[..|id|] == id && AllWord(id)
    requires |id| == |s| || !IsWordChar(s[|id|])
    ensures WordRun(s) == id
    decreases |s|
  {
    if id == [] {
    } else {
      assert s[1..][..|id| - 1] == id[1..];
      WordRunUnique(s[1..], id[1..]);
      assert [s[0]] + id[1..] == id;
    }
  }

  lemma RunAtIff(url: string, start: nat, id: string)
    requires start <= |url|
    ensures IsRunAt(url, start, id) <==> id != [] && WordRun(url[start..]) == id
  {
    var w := url[start..];
    if IsRunAt(url, start, id) {
      assert w[..|id|] == url[start..start + |id|];
      assert |id| < |w| ==> w[|id|] == url[start + |id|];
      WordRunUnique(w, id);
    }
    if id != [] && WordRun(w) == id {
      assert url[start..start + |id|] == w[..|id|];
      assert start + |id| < |url| ==> url[start + |id|] == w[|id|];
    }
  }

  /** `url[p..]` starts with `head` exactly when `head` sits at `p`; what
      follows it is the rest of the URL. */
  lemma HeadAt(url: string, p: nat, head: string)
    requires p <= |url|
    ensures StartsWith(url[p..], head) <==> p + |head| <= |url| && url[p..p + |head|] == head
    ensures p + |head| <= |url| ==> url[p..][|head|..] == url[p + |head|..]
  {
    if p + |head| <= |url| {
      assert url[p..][..|head|] == url[p..p + |head|];
    }
  }

  /** The two heads are the pattern's literal part with each alternative
      of the group. */
  lemma HeadsSpelled()
    ensures ShortPrefix == "trello.com/" + "b" + "/"
    ensures LongPrefix == "trello.com/" + "board" + "/"
  {
  }

  /** The two heads differ at their thirteenth character, so at most one of
      them sits at any position. */
  lemma HeadsExclusive(url: string, p: nat)
    requires p + |LongPrefix| <= |url| && url[p..p + |LongPrefix|] == LongPrefix
    ensures !(p + |ShortPrefix| <= |url| && url[p..p + |ShortPrefix|] == ShortPrefix)
  {
    assert url[p + 12] == LongPrefix[12] == 'o';
    assert ShortPrefix[12] == '/';
  }

  lemma MatchAtSound(url: string, p: nat, id: string)
    requires p <= |url| && MatchAt(url, p) == Some(id)
    ensures IsMatch(url, p, id)
  {
    HeadsSpelled();
    HeadAt(url, p, ShortPrefix);
    HeadAt(url, p, LongPrefix);
    if StartsWith(url[p..], ShortPrefix) && WordRun(url[p..][|ShortPrefix|..]) != [] {
      assert id == WordRun(url[p + |ShortPrefix|..]);
      RunAtIff(url, p + |ShortPrefix|, id);
      assert IsMatchWith(url, p, "b", id);
    } else {
      assert StartsWith(url[p..], LongPrefix);
      assert id == WordRun(url[p + |LongPrefix|..]);
      RunAtIff(url, p + |LongPrefix|, id);
      assert IsMatchWith(url, p, "board", id);
    }
  }

  lemma MatchAtComplete(url: string, p: nat, id: string)
    requires p <= |url| && IsMatch(url, p, id)
    ensures MatchAt(url, p) == Some(id)
  {
    HeadsSpelled();
    HeadAt(url, p, ShortPrefix);
    HeadAt(url, p, LongPrefix);
    if IsMatchWith(url, p, "b", id) {
      RunAtIff(url, p + |ShortPrefix|, id);
    } else {
      assert IsMatchWith(url, p, "board", id);
      HeadsExclusive(url, p);
      RunAtIff(url, p + |LongPrefix|, id);
    }
  }

  /** The anchored matcher agrees with the declarative reading, both ways. */
  lemma MatchAtIff(url: string, p: nat, id: string)
    requires p <= |url|
    ensures MatchAt(url, p) == Some(id) <==> IsMatch(url, p, id)
  {
    if MatchAt(url, p) == Some(id) {
      MatchAtSound(url, p, id);
    }
    if IsMatch(url, p, id) {
      MatchAtComplete(url, p, id);
    }
  }

  /** The extracted id is the one of the leftmost match in the URL, and there
      is none exactly when the URL holds no match at all. */
  lemma ExtractBoardIdLeftmost(url: string)
    ensures ExtractBoardId(url).Some? ==>
              exists p: nat :: p <= |url| && IsMatch(url, p, ExtractBoardId(url).value)
                          && forall q: nat, id :: q < p ==> !IsMatch(url, q, id)
    ensures ExtractBoardId(url).None? <==> forall p: nat, id :: !IsMatch(url, p, id)
  {
    var r := ExtractBoardId(url);
    SearchNone(url, 0);
    forall q: nat, id | q <= |url| && MatchAt(url, q).None?
      ensures !IsMatch(url, q, id)
    {
      MatchAtIff(url, q, id);
    }
    if r.Some? {
      var p := SearchPosition(url, 0);
      MatchAtIff(url, p, r.value);
    } else {
      forall p: nat, id ensures !IsMatch(url, p, id) {
        if p <= |url| { MatchAtIff(url, p, id); }
      }
    }
  }
}
