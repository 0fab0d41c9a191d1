/**
  `extract_video_id` (utils/youtube_utils.py): the first place in a URL where
  "v=" or "/" is followed by eleven characters from [0-9A-Za-z_-], searched the
  way a regular-expression search scans, from the left.
 */
module YouTube {
  import opened Optional

  /** A character of the class [0-9A-Za-z_-]. */
  predicate IsIdChar(c: char) {
    ('0' <= c <= '9') || ('A' <= c <= 'Z') || ('a' <= c <= 'z') || c == '_' || c == '-'
  }

  /** Length of a video id: the `{11}` repetition. */
  const IdLength := 11

  predicate IsId(s: string) {
    |s| == IdLength && forall k :: 0 <= k < |s| ==> IsIdChar(s[k])
  }

  /** Eleven id characters start at position `j`. */
  predicate IdAt(url: string, j: nat) {
    j + IdLength <= |url| && IsId(url[j..j + IdLength])
  }

  /** `id` is the text at `k`, right after a "/" or a "v=". */
  predicate TakenAt(url: string, k: nat, id: string) {
    && k + IdLength <= |url|
    && id == url[k..k + IdLength]
    && ((1 <= k && url[k - 1] == '/') || (2 <= k && url[k - 2..k] == "v="))
  }

  /**
    The pattern tried at position `i`: the alternative "v=" first, then "/";
    the group is the eleven characters after the marker. Nothing is required
    of what follows them.
   */
  function MatchAt(url: string, i: nat): (r: Option<string>)
    requires i <= |url|
    ensures r.Some? ==> IsId(r.value)
    ensures r.Some? <==>
      (i + 2 <= |url| && url[i..i + 2] == "v=" && IdAt(url, i + 2)) || (i < |url| && url[i] == '/' && IdAt(url, i + 1))
    ensures r.Some? && url[i] == '/' ==> r.value == url[i + 1..i + 1 + IdLength]
    ensures r.Some? && url[i] == 'v' ==> r.value == url[i + 2..i + 2 + IdLength]
  {
    if i + 2 <= |url| && url[i] == 'v' && url[i + 1] == '=' && IdAt(url, i + 2) then Some(url[i + 2..i + 2 + IdLength])
    else if i < |url| && url[i] == '/' && IdAt(url, i + 1) then Some(url[i + 1..i + 1 + IdLength])
    else None
  }

  /** The search from position `i` on: the first position that matches. */
  function SearchFrom(url: string, i: nat): (r: Option<string>)
    requires i <= |url|
    ensures r.Some? ==> IsId(r.value)
    decreases |url| - i
  {
    if MatchAt(url, i).Some? then MatchAt(url, i)
    else if i == |url| then None
    else SearchFrom(url, i + 1)
  }

  /**
    The search finds the match at the first matching position from `i` on, and
    nothing exactly when no position from `i` on matches.
   */
  lemma {:induction false} SearchFromLeftmost(url: string, i: nat)
    requires i <= |url|
    ensures SearchFrom(url, i).Some? ==>
      exists k :: i <= k <= |url| && MatchAt(url, k) == SearchFrom(url, i) && forall j :: i <= j < k ==> MatchAt(url, j).None?
    ensures SearchFrom(url, i).None? <==> forall k :: i <= k <= |url| ==> MatchAt(url, k).None?
    decreases |url| - i
  {
    if MatchAt(url, i).Some? {
      assert MatchAt(url, i) == SearchFrom(url, i);
    } else if i < |url| {
      SearchFromLeftmost(url, i + 1);
      if SearchFrom(url, i).Some? {
        var k :| i + 1 <= k <= |url| && MatchAt(url, k) == SearchFrom(url, i) && forall j :: i + 1 <= j < k ==> MatchAt(url, j).None?;
        assert forall j :: i <= j < k ==> MatchAt(url, j).None?;
      }
    }
  }

  /**
    `extract_video_id(url)`: the id, or None when no position matches. A found
    id is eleven id characters taken from the URL right after a "/" or a "v=",
    at the leftmost position where the pattern matches.
   */
  function ExtractVideoId(url: string): (r: Option<string>)
    ensures r.Some? ==> IsId(r.value)
    ensures r.Some? ==> exists k :: TakenAt(url, k, r.value)
    ensures r.Some? ==> exists k :: 0 <= k <= |url| && MatchAt(url, k) == r && forall j :: 0 <= j < k ==> MatchAt(url, j).None?
    ensures r.None? <==> forall k :: 0 <= k <= |url| ==> MatchAt(url, k).None?
  {
    SearchFromLeftmost(url, 0);
    FoundPlace(url);
    SearchFrom(url, 0)
  }

  lemma FoundPlace(url: string)
    ensures SearchFrom(url, 0).Some? ==> exists k :: TakenAt(url, k, SearchFrom(url, 0).value)
  {
    var r := SearchFrom(url, 0);
    SearchFromLeftmost(url, 0);
    if r.Some? {
      var k :| 0 <= k <= |url| && MatchAt(url, k) == r && forall j :: 0 <= j < k ==> MatchAt(url, j).None?;
      MatchPlace(url, k);
    }
  }

  /** Where a match at `i` takes its id from. */
  lemma MatchPlace(url: string, i: nat)
    requires i <= |url| && MatchAt(url, i).Some?
    ensures exists k :: TakenAt(url, k, MatchAt(url, i).value)
  {
    if i + 2 <= |url| && url[i] == 'v' && url[i + 1] == '=' && IdAt(url, i + 2) {
      assert url[i + 2 - 2..i + 2] == "v=";
      assert TakenAt(url, i + 2, MatchAt(url, i).value);
    } else {
      assert TakenAt(url, i + 1, MatchAt(url, i).value);
    }
  }

  /** Positions that do not match are skipped over. */
  lemma {:induction false} SkipTo(url: string, i: nat, k: nat)
    requires i <= k <= |url|
    requires forall j :: i <= j < k ==> MatchAt(url, j).None?
    ensures SearchFrom(url, i) == SearchFrom(url, k)
    decreases k - i
  {
    if i < k {
      assert MatchAt(url, i).None?;
      SkipTo(url, i + 1, k);
    }
  }

  /**
    An id right after "v=" at the start is found whatever follows it: eleven
    characters are taken even when more id characters come after them.
   */
  lemma LeadingParameter(id: string, rest: string)
    requires IsId(id)
    ensures ExtractVideoId("v=" + id + rest) == Some(id)
  {
    var url := "v=" + id + rest;
    assert url[2..2 + IdLength] == id;
    assert MatchAt(url, 0) == Some(id);
  }

  /** Within "https://youtu.be/", no position matches. */
  lemma ShortPrefixSkipped(url: string)
    requires |url| >= 17 + IdLength && forall j :: 0 <= j < 17 ==> url[j] == "https://youtu.be/"[j]
    ensures forall j :: 0 <= j < 16 ==> MatchAt(url, j).None?
  {
    forall j | 0 <= j < 16
      ensures MatchAt(url, j).None?
    {
      if j == 6 {
        assert !IsIdChar(url[7]);
        assert url[7..7 + IdLength][0] == url[7];
      } else if j == 7 {
        assert !IsIdChar(url[13]);
        assert url[8..8 + IdLength][5] == url[13];
      }
    }
  }

  /** A short link "https://youtu.be/<id>", with anything after the id. */
  lemma ShortLink(id: string, rest: string)
    requires IsId(id)
    ensures ExtractVideoId("https://youtu.be/" + id + rest) == Some(id)
  {
    var p := "https://youtu.be/";
    var url := p + id + rest;
    ShortPrefixSkipped(url);
    SkipTo(url, 0, 16);
    assert url[17..17 + IdLength] == id;
    assert MatchAt(url, 16) == Some(id);
  }

  /** Within "https://www.youtube.com/watch?", no position matches. */
  lemma WatchPrefixSkipped(url: string)
    requires |url| >= 32 + IdLength && forall j :: 0 <= j < 32 ==> url[j] == "https://www.youtube.com/watch?v="[j]
    ensures forall j :: 0 <= j < 30 ==> MatchAt(url, j).None?
  {
    forall j | 0 <= j < 30
      ensures MatchAt(url, j).None?
    {
      if j == 6 {
        assert !IsIdChar(url[7]);
        assert url[7..7 + IdLength][0] == url[7];
      } else if j == 7 {
        assert !IsIdChar(url[11]);
        assert url[8..8 + IdLength][3] == url[11];
      } else if j == 23 {
        assert !IsIdChar(url[29]);
        assert url[24..24 + IdLength][5] == url[29];
      }
    }
  }

  /** A watch link "https://www.youtube.com/watch?v=<id>", with anything after the id. */
  lemma WatchLink(id: string, rest: string)
    requires IsId(id)
    ensures ExtractVideoId("https://www.youtube.com/watch?v=" + id + rest) == Some(id)
  {
    var p := "https://www.youtube.com/watch?v=";
    var url := p + id + rest;
    WatchPrefixSkipped(url);
    SkipTo(url, 0, 30);
    assert url[32..32 + IdLength] == id;
    assert MatchAt(url, 30) == Some(id);
  }

  /** A text with no "/" and no "v=" yields nothing. */
  lemma NoMarkerNoId(url: string)
    requires '/' !in url
    requires forall j :: 0 <= j < |url| - 1 ==> !(url[j] == 'v' && url[j + 1] == '=')
    ensures ExtractVideoId(url) == None
  {
    forall k | 0 <= k <= |url|
      ensures MatchAt(url, k).None?
    {
      if k < |url| {
        assert url[k] != '/';
      }
    }
  }
}
