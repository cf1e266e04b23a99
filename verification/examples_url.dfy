/**
 The board URLs of the repository's unit tests, replayed on the model:
 a short board link yields its id, an empty id segment and a foreign host
 yield nothing.
 */
module UrlExamples {
  import opened Wrappers
  import opened Text
  import opened BoardUrl

  /** Where `url` has a character other than the `m`-th of "trello.com/"
      at `q + m` (or ends before it), nothing matches at `q`. */
  lemma MissAt(url: string, q: nat, m: nat)
    requires q <= |url| && m < 11
    requires q + m >= |url| || url[q + m] != ShortPrefix[m]
    ensures MatchAt(url, q).None?
  {
    assert LongPrefix[m] == ShortPrefix[m];
    assert q + m < |url| ==> url[q..][m] == url[q + m];
  }

  /** Without a 't' from `from` on, no match starts there. */
  lemma {:induction false} NoMatchWithoutT(url: string, from: nat)
    requires from <= |url| && 't' !in url[from..]
    ensures Search(url, from).None?
    decreases |url| - from
  {
    if from < |url| {
      assert url[from] == url[from..][0];
    }
    MissAt(url, from, 0);
    assert Search(url, from) == Search(url, from + 1);
    if from < |url| {
      assert url[from + 1..] == url[from..][1..];
      NoMatchWithoutT(url, from + 1);
    }
  }

  /** Positions that do not match are skipped. */
  lemma {:induction false} SearchSkips(url: string, from: nat, stop: nat)
    requires from <= stop <= |url| + 1
    requires forall q :: from <= q < stop ==> MatchAt(url, q).None?
    ensures Search(url, from) == Search(url, stop)
    decreases stop - from
  {
    if from < stop {
      assert Search(url, from) == Search(url, from + 1);
      SearchSkips(url, from + 1, stop);
    }
  }

  /** Nothing matches inside a leading "https://". */
  lemma SchemeMisses(url: string, rest: string)
    requires url == "https://" + rest
    ensures forall q :: 0 <= q < 8 ==> MatchAt(url, q).None?
  {
    forall q | 0 <= q < 8
      ensures MatchAt(url, q).None?
    {
      if q == 1 || q == 2 {
        MissAt(url, q, 1);
      } else {
        MissAt(url, q, 0);
      }
    }
  }

  /** Searching a URL that starts with "https://" starts in effect at
      position 8. */
  lemma SchemeSkipped(url: string, rest: string)
    requires url == "https://" + rest
    ensures Search(url, 0) == Search(url, 8)
  {
    SchemeMisses(url, rest);
    SearchSkips(url, 0, 8);
  }

  /** After "https://", a short board link with a word-character id
      followed by a non-word character (or nothing) yields that id. */
  lemma ShortLink(url: string, id: string, tail: string)
    requires url == "https://" + ShortPrefix + id + tail
    requires id != [] && AllWord(id) && (tail == [] || !IsWordChar(tail[0]))
    ensures ExtractBoardId(url) == Some(id)
  {
    SchemeSkipped(url, ShortPrefix + id + tail);
    ShortLinkMatches(url, id, tail);
  }

  lemma ShortLinkMatches(url: string, id: string, tail: string)
    requires url == "https://" + ShortPrefix + id + tail
    requires id != [] && AllWord(id) && (tail == [] || !IsWordChar(tail[0]))
    ensures MatchAt(url, 8) == Some(id)
  {
    HeadsSpelled();
    assert url[8..8 + |ShortPrefix|] == ShortPrefix;
    var s := 8 + |ShortPrefix|;
    assert url[s..s + |id|] == id;
    assert s + |id| < |url| ==> url[s + |id|] == tail[0];
    assert IsRunAt(url, s, id);
    assert IsMatchWith(url, 8, "b", id);
    MatchAtIff(url, 8, id);
  }

  /** `https://trello.com/b/abcd1234/board-name` yields `abcd1234`. The
      URL is written in its parts: scheme, board path, id, name. */
  lemma ValidUrl(url: string)
    requires url == "https://" + "trello.com/b/" + "abcd1234" + "/board-name"
    ensures ExtractBoardId(url) == Some("abcd1234")
  {
    ShortLink(url, "abcd1234", "/board-name");
  }

  /** After "https://", a short board link whose id segment is empty (the
      next character is another '/') and without a further 't' yields
      nothing. */
  lemma EmptyIdLink(url: string, tail: string)
    requires url == "https://" + ShortPrefix + tail
    requires tail != [] && tail[0] == '/' && 't' !in tail
    ensures ExtractBoardId(url) == None
  {
    SchemeSkipped(url, ShortPrefix + tail);
    EmptyIdMisses(url, tail);
    assert Search(url, 8) == Search(url, 9);
    NoTAfterHead(url, tail);
    NoMatchWithoutT(url, 9);
  }

  /** The only 't' of "https://" + ShortPrefix + tail past position 8 is
      none, when `tail` has none. */
  lemma NoTAfterHead(url: string, tail: string)
    requires url == "https://" + ShortPrefix + tail && 't' !in tail
    ensures |url| >= 9 && 't' !in url[9..]
  {
    assert url[9..] == "rello.com/b/" + tail;
  }

  /** A word run over text that starts with a non-word character is
      empty. */
  lemma NoRunAtNonWord(s: string)
    requires s != [] && !IsWordChar(s[0])
    ensures WordRun(s) == []
  {
  }

  lemma EmptyIdMisses(url: string, tail: string)
    requires url == "https://" + ShortPrefix + tail
    requires tail != [] && tail[0] == '/'
    ensures MatchAt(url, 8).None?
  {
    assert url[8..][|ShortPrefix|..] == tail;
    NoRunAtNonWord(tail);
    assert url[20] == '/' != LongPrefix[12];
    assert |LongPrefix| <= |url[8..]| ==> url[8..][..|LongPrefix|][12] == url[20];
  }

  /** `https://trello.com/b//board-name` has an empty id segment: nothing.
      The URL is written as scheme, board path and the rest. */
  lemma EmptyIdUrl(url: string)
    requires url == "https://" + "trello.com/b/" + "/board-name"
    ensures ExtractBoardId(url) == None
  {
    EmptyIdLink(url, "/board-name");
  }

  /** After "https://", text without a 't' holds no match: the board host
      is missing. */
  lemma NoHostLink(url: string, rest: string)
    requires url == "https://" + rest && 't' !in rest
    ensures ExtractBoardId(url) == None
  {
    SchemeSkipped(url, rest);
    assert url[8..] == rest;
    NoMatchWithoutT(url, 8);
  }

  /** `https://example.com/b/abcd1234/board-name` is not on the board
      host: nothing. The URL is written as scheme and the rest. */
  lemma ForeignHostUrl(url: string)
    requires url == "https://" + "example.com/b/abcd1234/board-name"
    ensures ExtractBoardId(url) == None
  {
    NoHostLink(url, "example.com/b/abcd1234/board-name");
  }
}
