/** `getEmbedUrl` of `components/VideoPlayer.tsx`: YouTube and Vimeo page links are rewritten into
    the URL their players embed; every other URL is passed through. The three regular expressions
    are modelled by a leftmost-match search for one of a list of literals followed by a greedy run
    of a character class, whose characters are the capture. */
module VideoPlayer {
  import opened Options
  import opened JsStrings

  /** The character classes the patterns capture: `[\w-]` and `\d`. */
  datatype CharClass = WordOrHyphen | Digit

  predicate InClass(cls: CharClass, c: char) {
    match cls
    case WordOrHyphen => IsWordOrHyphen(c)
    case Digit => IsDigit(c)
  }

  /** The end of the greedy run of `cls` characters starting at `i`. */
  function ClassRunEnd(s: string, i: nat, cls: CharClass): (j: nat)
    requires i <= |s|
    ensures i <= j <= |s|
    decreases |s| - i
  {
    if i < |s| && InClass(cls, s[i]) then ClassRunEnd(s, i + 1, cls) else i
  }

  /** The run is made of class characters and cannot be extended. */
  lemma {:induction false} ClassRunEndShape(s: string, i: nat, cls: CharClass)
    requires i <= |s|
    ensures forall k :: i <= k < ClassRunEnd(s, i, cls) ==> InClass(cls, s[k])
    ensures ClassRunEnd(s, i, cls) == |s| || !InClass(cls, s[ClassRunEnd(s, i, cls)])
    decreases |s| - i
  {
    if i < |s| && InClass(cls, s[i]) {
      ClassRunEndShape(s, i + 1, cls);
    }
  }

  /** A run of class characters followed by the end of the string or by a character outside the
      class is exactly what the greedy run takes. */
  lemma {:induction false} ClassRunEndOf(s: string, i: nat, j: nat, cls: CharClass)
    requires i <= j <= |s|
    requires forall k :: i <= k < j ==> InClass(cls, s[k])
    requires j == |s| || !InClass(cls, s[j])
    ensures ClassRunEnd(s, i, cls) == j
    decreases j - i
  {
    if i < j {
      ClassRunEndOf(s, i + 1, j, cls);
    }
  }

  /** The literal `lit` occurs in `s` at position `p`. */
  predicate LitAt(s: string, p: nat, lit: string) {
    p + |lit| <= |s| && forall j :: 0 <= j < |lit| ==> s[p + j] == lit[j]
  }

  /** `(?:alts[0]|alts[1]|…)(cls+)` tried at position `p`: the capture after the first alternative
      that occurs at `p` and is followed by at least one class character. */
  function MatchAt(s: string, p: nat, alts: seq<string>, cls: CharClass): Option<string>
    decreases |alts|
  {
    if |alts| == 0 then None
    else if LitAt(s, p, alts[0]) && ClassRunEnd(s, p + |alts[0]|, cls) > p + |alts[0]| then
      Some(s[p + |alts[0]|..ClassRunEnd(s, p + |alts[0]|, cls)])
    else MatchAt(s, p, alts[1..], cls)
  }

  /** `c` is the capture of `lit(cls+)` at `p`: the literal occurs at `p`, followed by a non-empty
      maximal class run, which is `c`. */
  predicate CapturedAfter(s: string, p: nat, lit: string, cls: CharClass, c: string) {
    LitAt(s, p, lit) && ClassRunEnd(s, p + |lit|, cls) > p + |lit|
    && c == s[p + |lit|..ClassRunEnd(s, p + |lit|, cls)]
  }

  /** What a match at `p` captures: a non-empty maximal class run right after one of the literals. */
  lemma {:induction false} MatchAtShape(s: string, p: nat, alts: seq<string>, cls: CharClass)
    ensures MatchAt(s, p, alts, cls).Some? ==>
      exists k :: 0 <= k < |alts| && CapturedAfter(s, p, alts[k], cls, MatchAt(s, p, alts, cls).value)
    decreases |alts|
  {
    if MatchAt(s, p, alts, cls).None? || CapturedAfter(s, p, alts[0], cls, MatchAt(s, p, alts, cls).value) {
    } else {
      MatchAtShape(s, p, alts[1..], cls);
      var k :| 0 <= k < |alts[1..]| && CapturedAfter(s, p, alts[1..][k], cls, MatchAt(s, p, alts[1..], cls).value);
      assert alts[1..][k] == alts[k + 1];
    }
  }

  /** `s.match(re)?.[1]` for a pattern without flags: the capture of the leftmost match at or after `p`. */
  function Search(s: string, p: nat, alts: seq<string>, cls: CharClass): Option<string>
    requires p <= |s|
    decreases |s| - p
  {
    var m := MatchAt(s, p, alts, cls);
    if m.Some? then m
    else if p == |s| then None
    else Search(s, p + 1, alts, cls)
  }

  /** No match starts at any position from `p` up to, not including, `q`. */
  predicate NoMatchIn(s: string, p: nat, q: nat, alts: seq<string>, cls: CharClass) {
    forall r :: p <= r < q ==> MatchAt(s, r, alts, cls).None?
  }

  /** The search is the leftmost match: it finds the match at the first position where there is one,
      and finds nothing exactly when no position from `p` on matches. */
  lemma SearchIsLeftmost(s: string, p: nat, alts: seq<string>, cls: CharClass)
    requires p <= |s|
    ensures Search(s, p, alts, cls).None? <==> NoMatchIn(s, p, |s| + 1, alts, cls)
    ensures Search(s, p, alts, cls).Some? ==>
      (exists r :: p <= r <= |s| && NoMatchIn(s, p, r, alts, cls) && Search(s, p, alts, cls) == MatchAt(s, r, alts, cls))
  {
    SearchFailsIff(s, p, alts, cls);
    SearchFindsFirst(s, p, alts, cls);
  }

  /** The search finds nothing exactly when no position from `p` on matches. */
  lemma {:induction false} SearchFailsIff(s: string, p: nat, alts: seq<string>, cls: CharClass)
    requires p <= |s|
    ensures Search(s, p, alts, cls).None? <==> NoMatchIn(s, p, |s| + 1, alts, cls)
    decreases |s| - p
  {
    if MatchAt(s, p, alts, cls).None? && p < |s| {
      SearchFailsIff(s, p + 1, alts, cls);
    }
  }

  /** A search that succeeds returns the match at a position before which nothing matches. */
  lemma {:induction false} SearchFindsFirst(s: string, p: nat, alts: seq<string>, cls: CharClass)
    requires p <= |s|
    ensures Search(s, p, alts, cls).Some? ==>
      (exists r :: p <= r <= |s| && NoMatchIn(s, p, r, alts, cls) && Search(s, p, alts, cls) == MatchAt(s, r, alts, cls))
    decreases |s| - p
  {
    if MatchAt(s, p, alts, cls).Some? {
      assert NoMatchIn(s, p, p, alts, cls);
    } else if p < |s| {
      SearchFindsFirst(s, p + 1, alts, cls);
      if Search(s, p + 1, alts, cls).Some? {
        var r :| p + 1 <= r <= |s| &&
          NoMatchIn(s, p + 1, r, alts, cls) && Search(s, p + 1, alts, cls) == MatchAt(s, r, alts, cls);
        assert NoMatchIn(s, p, r, alts, cls);
      }
    }
  }

  /** Positions without a match do not change the outcome of the search. */
  lemma {:induction false} SearchSkips(s: string, p: nat, q: nat, alts: seq<string>, cls: CharClass)
    requires p <= q <= |s|
    requires NoMatchIn(s, p, q, alts, cls)
    ensures Search(s, p, alts, cls) == Search(s, q, alts, cls)
    decreases q - p
  {
    if p < q {
      SearchSkips(s, p + 1, q, alts, cls);
    }
  }

  /** The alternatives of `/(?:youtube\.com\/watch\?v=|youtu\.be\/)([\w-]+)/`. */
  const WatchOrShort: seq<string> := ["youtube.com/watch?v=", "youtu.be/"]
  /** The literal of `/youtube\.com\/embed\/([\w-]+)/`. */
  const EmbedPath: seq<string> := ["youtube.com/embed/"]
  /** The literal of `/vimeo\.com\/(\d+)/`. */
  const VimeoPath: seq<string> := ["vimeo.com/"]

  function YouTubeEmbed(id: string): string {
    "https://www.youtube.com/embed/" + id
  }

  function VimeoPlayer(id: string): string {
    "https://player.vimeo.com/video/" + id
  }

  predicate MentionsYouTube(url: string) {
    Contains(url, "youtube.com") || Contains(url, "youtu.be")
  }

  /** The YouTube video id: a watch or short link first, an embed link second. */
  function YouTubeId(url: string): Option<string> {
    var watch := Search(url, 0, WatchOrShort, WordOrHyphen);
    if watch.Some? then watch else Search(url, 0, EmbedPath, WordOrHyphen)
  }

  function VimeoId(url: string): Option<string> {
    Search(url, 0, VimeoPath, Digit)
  }

  /** `getEmbedUrl` */
  function GetEmbedUrl(url: string): string {
    if MentionsYouTube(url) && YouTubeId(url).Some? then YouTubeEmbed(YouTubeId(url).value)
    else if Contains(url, "vimeo.com") && VimeoId(url).Some? then VimeoPlayer(VimeoId(url).value)
    else url
  }

  predicate AllInClass(id: string, cls: CharClass) {
    forall k :: 0 <= k < |id| ==> InClass(cls, id[k])
  }

  /** The three outcomes: a YouTube embed of a non-empty `[\w-]` id, taken before anything else; a
      Vimeo player of a non-empty digit id, only when the YouTube step found nothing; or the URL itself,
      exactly when neither step found an id. */
  lemma EmbedUrlCases(url: string)
    ensures var r := GetEmbedUrl(url);
      || (MentionsYouTube(url) && YouTubeId(url).Some? && r == YouTubeEmbed(YouTubeId(url).value)
          && |YouTubeId(url).value| > 0 && AllInClass(YouTubeId(url).value, WordOrHyphen))
      || (!(MentionsYouTube(url) && YouTubeId(url).Some?) && Contains(url, "vimeo.com") && VimeoId(url).Some?
          && r == VimeoPlayer(VimeoId(url).value)
          && |VimeoId(url).value| > 0 && AllInClass(VimeoId(url).value, Digit))
      || (!(MentionsYouTube(url) && YouTubeId(url).Some?) && !(Contains(url, "vimeo.com") && VimeoId(url).Some?)
          && r == url)
  {
    var y := YouTubeId(url);
    if y.Some? {
      var watch := Search(url, 0, WatchOrShort, WordOrHyphen);
      if watch.Some? {
        SearchCapture(url, 0, WatchOrShort, WordOrHyphen);
      } else {
        SearchCapture(url, 0, EmbedPath, WordOrHyphen);
      }
    }
    if VimeoId(url).Some? {
      SearchCapture(url, 0, VimeoPath, Digit);
    }
  }

  /** A capture is a non-empty run of class characters. */
  lemma SearchCapture(s: string, p: nat, alts: seq<string>, cls: CharClass)
    requires p <= |s| && Search(s, p, alts, cls).Some?
    ensures |Search(s, p, alts, cls).value| > 0 && AllInClass(Search(s, p, alts, cls).value, cls)
  {
    SearchIsLeftmost(s, p, alts, cls);
    var r :| p <= r <= |s| && NoMatchIn(s, p, r, alts, cls) && Search(s, p, alts, cls) == MatchAt(s, r, alts, cls);
    CaptureShape(s, r, alts, cls);
  }

  /** The capture of a match is a non-empty run of class characters. */
  lemma CaptureShape(s: string, r: nat, alts: seq<string>, cls: CharClass)
    requires MatchAt(s, r, alts, cls).Some?
    ensures |MatchAt(s, r, alts, cls).value| > 0 && AllInClass(MatchAt(s, r, alts, cls).value, cls)
  {
    var c := MatchAt(s, r, alts, cls).value;
    MatchAtShape(s, r, alts, cls);
    var k :| 0 <= k < |alts| && CapturedAfter(s, r, alts[k], cls, c);
    CapturedShape(s, r, alts[k], cls, c);
  }

  /** What a literal captures is a non-empty run of class characters. */
  lemma CapturedShape(s: string, r: nat, lit: string, cls: CharClass, c: string)
    requires CapturedAfter(s, r, lit, cls, c)
    ensures |c| > 0 && AllInClass(c, cls)
  {
    var i := r + |lit|;
    ClassRunEndShape(s, i, cls);
    forall j | 0 <= j < |c| ensures InClass(cls, c[j]) {
      assert c[j] == s[i + j];
    }
  }

  /** A literal does not occur where one of its characters is missing or different. */
  lemma LitMismatch(s: string, r: nat, lit: string, j: nat)
    requires j < |lit| && (r + j >= |s| || s[r + j] != lit[j])
    ensures !LitAt(s, r, lit)
  {
  }

  /** A literal occurs wherever a longer literal it begins occurs. */
  lemma LitPrefix(s: string, r: nat, lit: string, w: string)
    requires LitAt(s, r, lit) && |w| <= |lit| && lit[..|w|] == w
    ensures LitAt(s, r, w)
  {
    forall j | 0 <= j < |w| ensures s[r + j] == w[j] {
      assert w[j] == lit[..|w|][j];
    }
  }

  /** `includes` is an occurrence of the literal at some position. */
  lemma ContainsLit(s: string, w: string)
    ensures Contains(s, w) <==> exists p: nat :: LitAt(s, p, w)
  {
    if Contains(s, w) {
      var p := ContainsWitness(s, w);
      forall j | 0 <= j < |w| ensures s[p + j] == w[j] {
        assert s[p + j] == s[p..p + |w|][j];
      }
      assert LitAt(s, p, w);
    }
    forall p: nat | LitAt(s, p, w) ensures Contains(s, w) {
      assert s[p..p + |w|] == w;
      ContainsAt(s, w, p);
    }
  }

  /** A search that finds something found one of its literals. */
  lemma SearchFindsLit(s: string, alts: seq<string>, cls: CharClass)
    ensures Search(s, 0, alts, cls).Some? ==> exists r: nat, k :: 0 <= k < |alts| && LitAt(s, r, alts[k])
  {
    SearchIsLeftmost(s, 0, alts, cls);
    if Search(s, 0, alts, cls).Some? {
      var r :| 0 <= r <= |s| && NoMatchIn(s, 0, r, alts, cls) && Search(s, 0, alts, cls) == MatchAt(s, r, alts, cls);
      MatchAtShape(s, r, alts, cls);
    }
  }

  /** Every YouTube id is found after a YouTube host name, so the `includes` test in front of the
      YouTube patterns never rejects a URL they would match. */
  lemma YouTubeIdMentionsHost(url: string)
    ensures YouTubeId(url).Some? ==> MentionsYouTube(url)
  {
    SearchFindsLit(url, WatchOrShort, WordOrHyphen);
    SearchFindsLit(url, EmbedPath, WordOrHyphen);
    ContainsLit(url, "youtube.com");
    ContainsLit(url, "youtu.be");
    forall r: nat | LitAt(url, r, "youtube.com/watch?v=") ensures LitAt(url, r, "youtube.com") {
      LitPrefix(url, r, "youtube.com/watch?v=", "youtube.com");
    }
    forall r: nat | LitAt(url, r, "youtu.be/") ensures LitAt(url, r, "youtu.be") {
      LitPrefix(url, r, "youtu.be/", "youtu.be");
    }
    forall r: nat | LitAt(url, r, "youtube.com/embed/") ensures LitAt(url, r, "youtube.com") {
      LitPrefix(url, r, "youtube.com/embed/", "youtube.com");
    }
  }

  /** Likewise every Vimeo id is found after `vimeo.com`. */
  lemma VimeoIdMentionsHost(url: string)
    ensures VimeoId(url).Some? ==> Contains(url, "vimeo.com")
  {
    SearchFindsLit(url, VimeoPath, Digit);
    ContainsLit(url, "vimeo.com");
    forall r: nat | LitAt(url, r, "vimeo.com/") ensures LitAt(url, r, "vimeo.com") {
      LitPrefix(url, r, "vimeo.com/", "vimeo.com");
    }
  }

  /** The rewriting decided by the patterns alone: the `includes` tests change no outcome. */
  lemma EmbedUrlByIds(url: string)
    ensures GetEmbedUrl(url) ==
      if YouTubeId(url).Some? then YouTubeEmbed(YouTubeId(url).value)
      else if VimeoId(url).Some? then VimeoPlayer(VimeoId(url).value)
      else url
  {
    YouTubeIdMentionsHost(url);
    VimeoIdMentionsHost(url);
  }

  /** A literal holding a character outside the class cannot start inside a trailing stretch of class characters. */
  lemma NoLitInRun(s: string, q: nat, lit: string, j: nat, r: nat, cls: CharClass)
    requires j < |lit| && !InClass(cls, lit[j])
    requires forall k :: q <= k < |s| ==> InClass(cls, s[k])
    requires q <= r
    ensures !LitAt(s, r, lit)
  {
    LitMismatch(s, r, lit, j);
  }

  /** No literal of a list occurs at `r`, so no match starts there. */
  lemma NoMatchWithoutLit(s: string, r: nat, alts: seq<string>, cls: CharClass)
    requires forall k :: 0 <= k < |alts| ==> !LitAt(s, r, alts[k])
    ensures MatchAt(s, r, alts, cls).None?
  {
    MatchAtShape(s, r, alts, cls);
  }

  /** No pattern whose literals all start with `c` matches before the first `c`. */
  lemma NoMatchBefore(s: string, q: nat, c: char, alts: seq<string>, cls: CharClass)
    requires q <= |s|
    requires forall r :: 0 <= r < q ==> s[r] != c
    requires forall k :: 0 <= k < |alts| ==> |alts[k]| > 0 && alts[k][0] == c
    ensures Search(s, 0, alts, cls) == Search(s, q, alts, cls)
  {
    forall r | 0 <= r < q ensures MatchAt(s, r, alts, cls).None? {
      forall k | 0 <= k < |alts| ensures !LitAt(s, r, alts[k]) {
        LitMismatch(s, r, alts[k], 0);
      }
      NoMatchWithoutLit(s, r, alts, cls);
    }
    SearchSkips(s, 0, q, alts, cls);
  }

  /** Alternatives that do not occur at `p` are passed over. */
  lemma {:induction false} MatchAtSkips(s: string, p: nat, alts: seq<string>, k: nat, cls: CharClass)
    requires k <= |alts|
    requires forall i :: 0 <= i < k ==> !LitAt(s, p, alts[i])
    ensures MatchAt(s, p, alts, cls) == MatchAt(s, p, alts[k..], cls)
    decreases k
  {
    if k > 0 {
      MatchAtSkips(s, p, alts[1..], k - 1, cls);
      assert alts[1..][k - 1..] == alts[k..];
    }
  }

  /** A maximal class run right after a literal is what the literal captures. */
  lemma CaptureAfterLit(pre: string, lit: string, id: string, rest: string, cls: CharClass)
    requires |id| > 0 && AllInClass(id, cls)
    requires rest == [] || !InClass(cls, rest[0])
    ensures CapturedAfter(pre + lit + id + rest, |pre|, lit, cls, id)
  {
    var s := pre + lit + id + rest;
    var p := |pre|;
    var e := p + |lit| + |id|;
    forall j | 0 <= j < |lit| ensures s[p + j] == lit[j] {
    }
    forall q | p + |lit| <= q < e ensures InClass(cls, s[q]) {
      assert s[q] == id[q - p - |lit|];
    }
    if rest != [] {
      assert s[e] == rest[0];
    }
    ClassRunEndOf(s, p + |lit|, e, cls);
    assert s[p + |lit|..e] == id;
  }

  /** The match found right after the `k`-th alternative at `|pre|`: the whole id, when the earlier
      alternatives do not occur there and the id is a maximal class run. */
  lemma MatchAfterLit(pre: string, lit: string, id: string, rest: string, alts: seq<string>, k: nat, cls: CharClass)
    requires k < |alts| && alts[k] == lit
    requires forall i :: 0 <= i < k ==> !LitAt(pre + lit + id + rest, |pre|, alts[i])
    requires |id| > 0 && AllInClass(id, cls)
    requires rest == [] || !InClass(cls, rest[0])
    ensures Search(pre + lit + id + rest, |pre|, alts, cls) == Some(id)
  {
    var s := pre + lit + id + rest;
    CaptureAfterLit(pre, lit, id, rest, cls);
    MatchAtSkips(s, |pre|, alts, k, cls);
    assert alts[k..][0] == lit;
  }

  /** Characters of a string of the form `pre + …` in front of `|pre|`. */
  lemma PrefixChars(pre: string, s: string, c: char)
    requires |pre| <= |s| && s[..|pre|] == pre && c !in pre
    ensures forall r :: 0 <= r < |pre| ==> s[r] != c
  {
    forall r | 0 <= r < |pre| ensures s[r] != c {
      assert s[r] == pre[r];
    }
  }

  /** `youtube.com/watch?v=ID` becomes the embed URL of ID, where ID is the maximal `[\w-]` run. */
  lemma WatchLink(pre: string, id: string, rest: string)
    requires 'y' !in pre
    requires |id| > 0 && AllInClass(id, WordOrHyphen)
    requires rest == [] || !IsWordOrHyphen(rest[0])
    ensures GetEmbedUrl(pre + "youtube.com/watch?v=" + id + rest) == YouTubeEmbed(id)
  {
    var url := pre + "youtube.com/watch?v=" + id + rest;
    EmbedUrlByIds(url);
    assert url[..|pre|] == pre;
    PrefixChars(pre, url, 'y');
    NoMatchBefore(url, |pre|, 'y', WatchOrShort, WordOrHyphen);
    MatchAfterLit(pre, "youtube.com/watch?v=", id, rest, WatchOrShort, 0, WordOrHyphen);
  }

  /** `youtu.be/ID` becomes the embed URL of ID. */
  lemma ShortLink(pre: string, id: string, rest: string)
    requires 'y' !in pre
    requires |id| > 0 && AllInClass(id, WordOrHyphen)
    requires rest == [] || !IsWordOrHyphen(rest[0])
    ensures GetEmbedUrl(pre + "youtu.be/" + id + rest) == YouTubeEmbed(id)
  {
    var url := pre + "youtu.be/" + id + rest;
    var p := |pre|;
    assert url[..p] == pre;
    PrefixChars(pre, url, 'y');
    NoMatchBefore(url, p, 'y', WatchOrShort, WordOrHyphen);
    ShortIsNoWatch(pre, id, rest);
    MatchAfterLit(pre, "youtu.be/", id, rest, WatchOrShort, 1, WordOrHyphen);
    EmbedUrlByIds(url);
  }

  /** Where `youtu.be/` occurs, the watch alternative fails on `.` against `b`. */
  lemma ShortIsNoWatch(pre: string, id: string, rest: string)
    ensures forall i :: 0 <= i < 1 ==> !LitAt(pre + "youtu.be/" + id + rest, |pre|, WatchOrShort[i])
  {
    var url := pre + "youtu.be/" + id + rest;
    assert url[|pre| + 5] == '.';
    LitMismatch(url, |pre|, "youtube.com/watch?v=", 5);
  }

  /** The id of a URL built as a literal followed by the id fills the rest of the URL. */
  lemma TailIsId(head: string, id: string, cls: CharClass)
    requires AllInClass(id, cls)
    ensures forall j :: |head| <= j < |head + id| ==> InClass(cls, (head + id)[j])
  {
    forall j | |head| <= j < |head + id| ensures InClass(cls, (head + id)[j]) {
      assert (head + id)[j] == id[j - |head|];
    }
  }

  /** A URL of YouTube's embed form, `…youtube.com/embed/ID…`, is rewritten to the canonical embed
      URL of ID when no `y` stands before the host or after the id, and what follows the id starts
      with neither a `[\w-]` character nor a `.` (a query such as `?start=30` does). */
  lemma EmbedFormFixed(pre: string, id: string, rest: string)
    requires 'y' !in pre && 'y' !in rest
    requires |id| > 0 && AllInClass(id, WordOrHyphen)
    requires rest == [] || (!IsWordOrHyphen(rest[0]) && rest[0] != '.')
    ensures GetEmbedUrl(pre + "youtube.com/embed/" + id + rest) == YouTubeEmbed(id)
  {
    var s := pre + "youtube.com/embed/" + id + rest;
    forall r | 0 <= r <= |s| ensures MatchAt(s, r, WatchOrShort, WordOrHyphen).None? {
      EmbedFormHasNoWatchAt(pre, id, rest, r);
      NoMatchWithoutLit(s, r, WatchOrShort, WordOrHyphen);
    }
    SearchIsLeftmost(s, 0, WatchOrShort, WordOrHyphen);
    assert s[..|pre|] == pre;
    PrefixChars(pre, s, 'y');
    NoMatchBefore(s, |pre|, 'y', EmbedPath, WordOrHyphen);
    MatchAfterLit(pre, "youtube.com/embed/", id, rest, EmbedPath, 0, WordOrHyphen);
    EmbedUrlByIds(s);
  }

  /** Neither a watch link nor a short link starts anywhere in a URL of the embed form as in
      `EmbedFormFixed`. */
  lemma EmbedFormHasNoWatchAt(pre: string, id: string, rest: string, r: nat)
    requires 'y' !in pre && 'y' !in rest
    requires AllInClass(id, WordOrHyphen)
    requires rest == [] || (!IsWordOrHyphen(rest[0]) && rest[0] != '.')
    ensures forall k :: 0 <= k < |WatchOrShort| ==> !LitAt(pre + "youtube.com/embed/" + id + rest, r, WatchOrShort[k])
  {
    var e := "youtube.com/embed/";
    var s := pre + e + id + rest;
    var watch := "youtube.com/watch?v=";
    var short := "youtu.be/";
    if r < |pre| {
      assert s[r] == pre[r];
      LitMismatch(s, r, watch, 0);
      LitMismatch(s, r, short, 0);
    } else if r == |pre| {
      assert s[r + 5] == e[5] && s[r + 12] == e[12];
      LitMismatch(s, r, watch, 12);
      LitMismatch(s, r, short, 5);
    } else if r < |pre| + |e| {
      assert s[r] == e[r - |pre|];
      LitMismatch(s, r, watch, 0);
      LitMismatch(s, r, short, 0);
    } else if r < |pre| + |e| + |id| {
      DottedLitNotInId(pre + e, id, rest, r, watch, 7);
      DottedLitNotInId(pre + e, id, rest, r, short, 5);
    } else if r < |s| {
      assert s[r] == rest[r - |pre| - |e| - |id|];
      LitMismatch(s, r, watch, 0);
      LitMismatch(s, r, short, 0);
    } else {
      LitMismatch(s, r, watch, 0);
      LitMismatch(s, r, short, 0);
    }
  }

  /** A literal made of `[\w-]` characters up to a `.` does not start inside an id of `[\w-]`
      characters that is followed by neither such a character nor a `.`. */
  lemma DottedLitNotInId(head: string, id: string, rest: string, r: nat, w: string, d: nat)
    requires AllInClass(id, WordOrHyphen)
    requires rest == [] || (!IsWordOrHyphen(rest[0]) && rest[0] != '.')
    requires |head| <= r < |head| + |id|
    requires d < |w| && w[d] == '.' && forall j :: 0 <= j < d ==> IsWordOrHyphen(w[j])
    ensures !LitAt(head + id + rest, r, w)
  {
    var s := head + id + rest;
    var end := |head| + |id|;
    if r + d < end {
      assert s[r + d] == id[r + d - |head|];
      LitMismatch(s, r, w, d);
    } else if end < |s| {
      assert s[end] == rest[0];
      LitMismatch(s, r, w, end - r);
    } else {
      LitMismatch(s, r, w, end - r);
    }
  }

  /** A URL of YouTube's embed form is left as it is, so the rewriting is idempotent on its YouTube output. */
  lemma EmbedIsFixed(id: string)
    requires |id| > 0 && AllInClass(id, WordOrHyphen)
    ensures GetEmbedUrl(YouTubeEmbed(id)) == YouTubeEmbed(id)
  {
    assert "https://www.youtube.com/embed/" == "https://www." + "youtube.com/embed/";
    assert YouTubeEmbed(id) == "https://www." + "youtube.com/embed/" + id + [];
    EmbedFormFixed("https://www.", id, []);
  }

  /** `vimeo.com/<digits>` becomes the player URL of those digits when there is no `y` around them. */
  lemma VimeoLink(pre: string, id: string, rest: string)
    requires 'y' !in pre && 'y' !in rest && 'v' !in pre
    requires |id| > 0 && AllInClass(id, Digit)
    requires rest == [] || !IsDigit(rest[0])
    ensures GetEmbedUrl(pre + "vimeo.com/" + id + rest) == VimeoPlayer(id)
  {
    var url := pre + "vimeo.com/" + id + rest;
    forall r | 0 <= r < |url| ensures url[r] != 'y' {
      VimeoLinkChar(pre, id, rest, r);
    }
    NoMatchBefore(url, |url|, 'y', WatchOrShort, WordOrHyphen);
    NoMatchBefore(url, |url|, 'y', EmbedPath, WordOrHyphen);
    assert url[..|pre|] == pre;
    PrefixChars(pre, url, 'v');
    NoMatchBefore(url, |pre|, 'v', VimeoPath, Digit);
    MatchAfterLit(pre, "vimeo.com/", id, rest, VimeoPath, 0, Digit);
    EmbedUrlByIds(url);
  }

  /** A Vimeo link as in `VimeoLink` has no `y` when its surroundings have none. */
  lemma VimeoLinkChar(pre: string, id: string, rest: string, r: nat)
    requires 'y' !in pre && 'y' !in rest
    requires AllInClass(id, Digit)
    requires r < |pre + "vimeo.com/" + id + rest|
    ensures (pre + "vimeo.com/" + id + rest)[r] != 'y'
  {
    var url := pre + "vimeo.com/" + id + rest;
    if r < |pre| {
      assert url[r] == pre[r];
    } else if r < |pre| + 10 {
      assert url[r] == "vimeo.com/"[r - |pre|];
    } else if r < |pre| + 10 + |id| {
      assert url[r] == id[r - |pre| - 10];
    } else {
      assert url[r] == rest[r - |pre| - 10 - |id|];
    }
  }

  /** Any URL of Vimeo's player form, `…player.vimeo.com/video/DIGITS`, is returned unchanged:
      `vimeo.com/` in it is followed by `video`, not digits, and the `y` of `player` starts no YouTube literal. */
  lemma PlayerFormFixed(pre: string, id: string)
    requires 'y' !in pre && 'v' !in pre
    requires AllInClass(id, Digit)
    ensures GetEmbedUrl(pre + "player.vimeo.com/video/" + id) == pre + "player.vimeo.com/video/" + id
  {
    var s := pre + "player.vimeo.com/video/" + id;
    forall r | 0 <= r <= |s| ensures MatchAt(s, r, WatchOrShort, WordOrHyphen).None?
      && MatchAt(s, r, EmbedPath, WordOrHyphen).None?
    {
      PlayerFormHasNoYouTubeAt(pre, id, r);
      NoMatchWithoutLit(s, r, WatchOrShort, WordOrHyphen);
      NoMatchWithoutLit(s, r, EmbedPath, WordOrHyphen);
    }
    forall r | 0 <= r <= |s| ensures MatchAt(s, r, VimeoPath, Digit).None? {
      PlayerFormHasNoVimeoIdAt(pre, id, r);
    }
    SearchIsLeftmost(s, 0, WatchOrShort, WordOrHyphen);
    SearchIsLeftmost(s, 0, EmbedPath, WordOrHyphen);
    SearchIsLeftmost(s, 0, VimeoPath, Digit);
    EmbedUrlByIds(s);
  }

  /** The only `y` of a URL of the player form is the one of `player`, followed by `e`, not `o`. */
  lemma PlayerFormHasNoYouTubeAt(pre: string, id: string, r: nat)
    requires 'y' !in pre
    requires AllInClass(id, Digit)
    ensures forall k :: 0 <= k < |WatchOrShort| ==> !LitAt(pre + "player.vimeo.com/video/" + id, r, WatchOrShort[k])
    ensures forall k :: 0 <= k < |EmbedPath| ==> !LitAt(pre + "player.vimeo.com/video/" + id, r, EmbedPath[k])
  {
    var e := "player.vimeo.com/video/";
    var s := pre + e + id;
    forall w | w in WatchOrShort + EmbedPath ensures !LitAt(s, r, w) {
      assert w[0] == 'y' && w[1] == 'o';
      if r < |pre| {
        assert s[r] == pre[r];
        LitMismatch(s, r, w, 0);
      } else if r == |pre| + 3 {
        assert s[r + 1] == e[4];
        LitMismatch(s, r, w, 1);
      } else if r < |pre| + |e| {
        assert s[r] == e[r - |pre|];
        LitMismatch(s, r, w, 0);
      } else {
        TailIsId(pre + e, id, Digit);
        NoLitInRun(s, |pre + e|, w, 0, r, Digit);
      }
    }
  }

  /** `vimeo.com/` occurs in a URL of the player form only in front of `video`, so no digits are captured. */
  lemma PlayerFormHasNoVimeoIdAt(pre: string, id: string, r: nat)
    requires 'v' !in pre
    requires AllInClass(id, Digit)
    ensures MatchAt(pre + "player.vimeo.com/video/" + id, r, VimeoPath, Digit).None?
  {
    var e := "player.vimeo.com/video/";
    var s := pre + e + id;
    var lit := "vimeo.com/";
    if r == |pre| + 7 {
      assert s[r + 10] == e[17];
      assert ClassRunEnd(s, r + 10, Digit) == r + 10;
    } else {
      if r < |pre| {
        assert s[r] == pre[r];
        LitMismatch(s, r, lit, 0);
      } else if r == |pre| + 17 {
        assert s[r + 2] == e[19];
        LitMismatch(s, r, lit, 2);
      } else if r < |pre| + |e| {
        assert s[r] == e[r - |pre|];
        LitMismatch(s, r, lit, 0);
      } else {
        TailIsId(pre + e, id, Digit);
        NoLitInRun(s, |pre + e|, lit, 0, r, Digit);
      }
      NoMatchWithoutLit(s, r, VimeoPath, Digit);
    }
  }

  /** A Vimeo player URL is returned unchanged, so the rewriting is idempotent on its Vimeo output. */
  lemma PlayerIsFixed(id: string)
    requires AllInClass(id, Digit)
    ensures GetEmbedUrl(VimeoPlayer(id)) == VimeoPlayer(id)
  {
    assert "https://player.vimeo.com/video/" == "https://" + "player.vimeo.com/video/";
    PlayerFormFixed("https://", id);
  }
}
