/** `ArticleRenderer` of `components/ArticleRenderer.tsx`: turns an article body into a list of
    blocks, one line at a time (each line trimmed), gathering runs of quote, bullet and numbered
    lines into one block. React elements are replaced by the `Block` datatype. */
module ArticleRenderer {
  import opened Options
  import opened JsStrings
  import opened InlineMarkdown

  datatype ListItem = ListItem(number: nat, content: seq<Inline>)

  datatype Block =
    | Rule
    | Heading(level: nat, content: seq<Inline>)
    | Quote(lines: seq<seq<Inline>>)
    | Figure(alt: string, url: string)
    | Bullets(items: seq<seq<Inline>>)
    | Numbered(entries: seq<ListItem>)
    | Paragraph(content: seq<Inline>)

  predicate AllTrimmed(ts: seq<string>) {
    forall k :: 0 <= k < |ts| ==> IsTrimmed(ts[k])
  }

  /** Every line of the body, trimmed, as the renderer reads it. */
  function TrimAll(lines: seq<string>): (ts: seq<string>)
    ensures |ts| == |lines| && AllTrimmed(ts)
    decreases |lines|
  {
    if |lines| == 0 then []
    else
      var front := TrimAll(lines[..|lines| - 1]);
      var last := Trim(lines[|lines| - 1]);
      AllTrimmedSnoc(front, last);
      front + [last]
  }

  lemma AllTrimmedSnoc(ts: seq<string>, t: string)
    requires AllTrimmed(ts) && IsTrimmed(t)
    ensures AllTrimmed(ts + [t])
  {
    assert forall k :: 0 <= k < |ts| ==> (ts + [t])[k] == ts[k];
  }

  /** Line `k` of the trimmed body is line `k` of the body, trimmed. */
  lemma {:induction false} TrimAllAt(lines: seq<string>, k: nat)
    requires k < |lines|
    ensures TrimAll(lines)[k] == Trim(lines[k])
    decreases |lines|
  {
    if k < |lines| - 1 {
      TrimAllAt(lines[..|lines| - 1], k);
      assert lines[..|lines| - 1][k] == lines[k];
    }
  }

  predicate IsRuleChar(c: char) {
    c == '-' || c == '*' || c == '_'
  }

  /** `/^[-*_]{3,}$/` */
  predicate IsRule(t: string) {
    |t| >= 3 && forall k :: 0 <= k < |t| ==> IsRuleChar(t[k])
  }

  /** The number of `#` characters `t` starts with. */
  function CountHashes(t: string): (n: nat)
    ensures n <= |t| && (forall k :: 0 <= k < n ==> t[k] == '#') && (n == |t| || t[n] != '#')
  {
    if |t| > 0 && t[0] == '#' then 1 + CountHashes(t[1..]) else 0
  }

  /** The end of the run of whitespace that starts at `from`. */
  function SpaceEnd(t: string, from: nat): (e: nat)
    requires from <= |t|
    ensures from <= e <= |t| && (forall k :: from <= k < e ==> IsSpace(t[k])) && (e == |t| || !IsSpace(t[e]))
    decreases |t| - from
  {
    if from < |t| && IsSpace(t[from]) then SpaceEnd(t, from + 1) else from
  }

  /** The end of what `.+` (greedy, no line terminators) takes from `from`. */
  function LineEnd(t: string, from: nat): (e: nat)
    requires from <= |t|
    ensures from <= e <= |t| && (forall k :: from <= k < e ==> !IsLineTerminator(t[k]))
    ensures e == |t| || IsLineTerminator(t[e])
    decreases |t| - from
  {
    if from < |t| && !IsLineTerminator(t[from]) then LineEnd(t, from + 1) else from
  }

  /** The end of the run of ASCII digits that starts at `from`. */
  function DigitEnd(t: string, from: nat): (e: nat)
    requires from <= |t|
    ensures from <= e <= |t| && (forall k :: from <= k < e ==> IsDigit(t[k])) && (e == |t| || !IsDigit(t[e]))
    decreases |t| - from
  {
    if from < |t| && IsDigit(t[from]) then DigitEnd(t, from + 1) else from
  }

  /** `/^(#{1,6})\s+(.+)/` on a trimmed line: the level and the heading text. */
  function HeadingMatch(t: string): (r: Option<(nat, string)>)
    requires t == [] || !IsSpace(t[|t| - 1])
    ensures r.Some? <==> 1 <= CountHashes(t) <= 6 && CountHashes(t) < |t| && IsSpace(t[CountHashes(t)])
    ensures r.Some? ==> var (level, text) := r.value;
      && 1 <= level <= 6 && level < |t| && (forall k :: 0 <= k < level ==> t[k] == '#')
      && text != [] && !IsSpace(text[0]) && (forall k :: 0 <= k < |text| ==> !IsLineTerminator(text[k]))
    ensures r.Some? ==> var (level, text) := r.value;
      && level == CountHashes(t) && text == t[SpaceEnd(t, level)..LineEnd(t, SpaceEnd(t, level))]
  {
    var h := CountHashes(t);
    if 1 <= h <= 6 && h < |t| && IsSpace(t[h]) then
      var w := SpaceEnd(t, h);
      Some((h, t[w..LineEnd(t, w)]))
    else None
  }

  predicate IsBullet(t: string) {
    |t| >= 2 && (t[0] == '-' || t[0] == '*') && IsSpace(t[1])
  }

  /** `/^\d+\.\s/` */
  predicate IsNumbered(t: string) {
    var d := DigitEnd(t, 0);
    d >= 1 && d + 1 < |t| && t[d] == '.' && IsSpace(t[d + 1])
  }

  /** `/^!\[([^\]]*)\]\(([^)]+)\)$/`: a line that is one image and nothing else. */
  function ImageLine(t: string): (r: Option<Inline>)
    ensures r.Some? ==> r.value.Image? && SourceOf(r.value) == t
  {
    var m := MatchImage(t);
    if m.Some? && |SourceOf(m.value)| == |t| then m else None
  }

  /** `t` is the source of the image with alternative text `alt` and URL `url`, as the pattern
      reads it: no `]` in the text, a non-empty URL without `)`. */
  predicate IsImageSource(t: string, alt: string, url: string) {
    t == "![" + alt + "](" + url + ")" && ']' !in alt && ')' !in url && url != []
  }

  /** A line that is exactly an image source is read as that image. */
  lemma ImageLineFound(alt: string, url: string)
    requires ']' !in alt && ')' !in url && url != []
    ensures ImageLine("![" + alt + "](" + url + ")") == Some(Image(alt, url))
  {
    var t := "![" + alt + "](" + url + ")";
    assert t + [] == t;
    ImageFound(alt, url, []);
  }

  /** A line is an image line exactly when it is the source of some image. */
  lemma ImageLineIff(t: string)
    ensures ImageLine(t).Some? <==> exists alt, url :: IsImageSource(t, alt, url)
  {
    if ImageLine(t).Some? {
      var m := ImageLine(t).value;
      BracketedParts(t);
      assert IsImageSource(t, m.alt, m.url);
    }
    if exists alt, url :: IsImageSource(t, alt, url) {
      var alt, url :| IsImageSource(t, alt, url);
      ImageLineFound(alt, url);
    }
  }

  /** `/^[-—•*]\s/`: a line that reads like a list item, including the dash and bullet characters
      that do not make a list. */
  predicate LooksLikeItem(t: string) {
    |t| >= 2 && (t[0] == '-' || t[0] == '—' || t[0] == '•' || t[0] == '*') && IsSpace(t[1])
  }

  /** A line ending in none of `.`, `,`, `;` and `:`. */
  predicate NoEndPunct(t: string) {
    !EndsWith(t, ".") && !EndsWith(t, ",") && !EndsWith(t, ";") && !EndsWith(t, ":")
  }

  /** A line that starts like no numbered item, list-like item, image or quote. */
  predicate NotListLike(t: string) {
    !IsNumbered(t) && !LooksLikeItem(t) && !StartsWith(t, "![") && !StartsWith(t, ">")
  }

  /** The plain-text heading rule on the trimmed line `ts[i]`: a line shorter than 60 characters,
      without closing punctuation, between blank lines (or the edges of the body), that does not
      look like a list item, image or quote. */
  predicate AutoHeading(ts: seq<string>, i: nat)
    requires i < |ts|
  {
    PlainHeading(ts[i], i == 0 || ts[i - 1] == "", i >= |ts| - 1 || ts[i + 1] == "")
  }

  /** The plain-text heading test on line `t`, given whether the lines around it are blank. */
  predicate PlainHeading(t: string, prevBlank: bool, nextBlank: bool) {
    |t| < 60 && NoEndPunct(t) && prevBlank && nextBlank && NotListLike(t)
  }

  /** The three kinds of line that are gathered into one block while they last. */
  datatype RunKind = QuoteRun | BulletRun | NumberRun

  predicate InRun(kind: RunKind, t: string) {
    match kind
    case QuoteRun => StartsWith(t, ">")
    case BulletRun => IsBullet(t)
    case NumberRun => IsNumbered(t)
  }

  /** Where the item text of a run line starts: after the marker and the white space behind it. */
  function MarkerEnd(kind: RunKind, t: string): (e: nat)
    requires InRun(kind, t)
    ensures e <= |t|
  {
    match kind
    case QuoteRun => SpaceEnd(t, 1)
    case BulletRun => SpaceEnd(t, 1)
    case NumberRun => SpaceEnd(t, DigitEnd(t, 0) + 1)
  }

  /** The item text of a run line: the marker (`>`, `-` or `*`, or digits and a dot) and the
      white space after it removed. A line without the marker is left unchanged, as `replace` does. */
  function Strip(kind: RunKind, t: string): string
  {
    if InRun(kind, t) then t[MarkerEnd(kind, t)..] else t
  }

  /** On a run line the marker goes and what is left is a suffix that starts with no white space;
      any other line is unchanged. */
  lemma StripShape(kind: RunKind, t: string)
    ensures InRun(kind, t) ==> |Strip(kind, t)| < |t| && EndsWith(t, Strip(kind, t))
    ensures InRun(kind, t) ==> Strip(kind, t) == [] || !IsSpace(Strip(kind, t)[0])
    ensures !InRun(kind, t) ==> Strip(kind, t) == t
  {
  }

  /** Where a run of `kind` lines starting at `i` ends: the first line after it that is not of that kind. */
  function RunEnd(ts: seq<string>, i: nat, kind: RunKind): (j: nat)
    requires i <= |ts|
    ensures i <= j <= |ts|
    decreases |ts| - i
  {
    if i < |ts| && InRun(kind, ts[i]) then RunEnd(ts, i + 1, kind) else i
  }

  /** A run takes every line of its kind from `i` on and stops at the first line of another kind. */
  lemma {:induction false} RunEndShape(ts: seq<string>, i: nat, kind: RunKind)
    requires i <= |ts|
    ensures forall k :: i <= k < RunEnd(ts, i, kind) ==> InRun(kind, ts[k])
    ensures RunEnd(ts, i, kind) == |ts| || !InRun(kind, ts[RunEnd(ts, i, kind)])
    decreases |ts| - i
  {
    if i < |ts| && InRun(kind, ts[i]) {
      RunEndShape(ts, i + 1, kind);
    }
  }

  /** The run end is determined by the lines: any `j` ending a run from `i` is `RunEnd`. */
  lemma {:induction false} RunEndUnique(ts: seq<string>, i: nat, j: nat, kind: RunKind)
    requires i <= j <= |ts|
    requires forall k :: i <= k < j ==> InRun(kind, ts[k])
    requires j == |ts| || !InRun(kind, ts[j])
    ensures RunEnd(ts, i, kind) == j
    decreases j - i
  {
    if i < j {
      RunEndUnique(ts, i + 1, j, kind);
    }
  }

  /** The stripped texts of lines `i` to `j`. */
  function Items(ts: seq<string>, i: nat, j: nat, kind: RunKind): (r: seq<string>)
    requires i <= j <= |ts|
    ensures |r| == j - i
    decreases j - i
  {
    if i == j then [] else Items(ts, i, j - 1, kind) + [Strip(kind, ts[j - 1])]
  }

  /** The items are the lines' texts in order: entry `k` is line `i + k` with its marker stripped. */
  lemma {:induction false} ItemsAt(ts: seq<string>, i: nat, j: nat, kind: RunKind)
    requires i <= j <= |ts|
    ensures forall k :: 0 <= k < j - i ==> Items(ts, i, j, kind)[k] == Strip(kind, ts[i + k])
    decreases j - i
  {
    if i < j {
      ItemsAt(ts, i, j - 1, kind);
    }
  }

  function FormatEach(items: seq<string>): (r: seq<seq<Inline>>)
    ensures |r| == |items|
  {
    seq(|items|, k requires 0 <= k < |items| => Tokenize(items[k]))
  }

  /** An ordered list numbers its items 1, 2, … whatever numbers the lines carried. */
  function Numbering(contents: seq<seq<Inline>>): (r: seq<ListItem>)
    ensures |r| == |contents|
    ensures forall k :: 0 <= k < |r| ==> r[k] == ListItem(k + 1, contents[k])
  {
    seq(|contents|, k requires 0 <= k < |contents| => ListItem(k + 1, contents[k]))
  }

  function RunBlock(kind: RunKind, contents: seq<seq<Inline>>): Block {
    match kind
    case QuoteRun => Quote(contents)
    case BulletRun => Bullets(contents)
    case NumberRun => Numbered(Numbering(contents))
  }

  /** The block gathered from the run of `kind` lines starting at `i`. */
  function RunAt(ts: seq<string>, i: nat, kind: RunKind): (r: (Block, nat))
    requires i < |ts| && InRun(kind, ts[i])
    ensures i < r.1 <= |ts|
  {
    var j := RunEnd(ts, i, kind);
    (RunBlock(kind, FormatEach(Items(ts, i, j, kind))), j)
  }

  /** The block rules of the renderer, numbered in the order they are tried at the non-blank
      trimmed line `ts[i]`: rule, heading, quote, image line, bullet list, numbered list, plain-text
      heading or paragraph from 6 on, which always applies. Each gives the block and the
      index of the line after it. */
  function BlockRule(ts: seq<string>, i: nat, rule: nat): (r: Option<(Block, nat)>)
    requires i < |ts| && IsTrimmed(ts[i])
    ensures r.Some? ==> i < r.value.1 <= |ts|
    ensures rule >= 6 ==> r.Some?
  {
    var t := ts[i];
    if rule == 0 then (if IsRule(t) then Some((Rule, i + 1)) else None)
    else if rule == 1 then
      (if HeadingMatch(t).Some? then Some((Heading(HeadingMatch(t).value.0, Tokenize(HeadingMatch(t).value.1)), i + 1))
       else None)
    else if rule == 2 then (if StartsWith(t, ">") then Some(RunAt(ts, i, QuoteRun)) else None)
    else if rule == 3 then
      (if ImageLine(t).Some? then Some((Figure(ImageLine(t).value.alt, ImageLine(t).value.url), i + 1)) else None)
    else if rule == 4 then (if IsBullet(t) then Some(RunAt(ts, i, BulletRun)) else None)
    else if rule == 5 then (if IsNumbered(t) then Some(RunAt(ts, i, NumberRun)) else None)
    else Some(PlainBlock(ts, i))
  }

  /** A line no markup rule claims: a plain-text heading (level 1 on the first line, 2 elsewhere)
      when `AutoHeading` holds, a paragraph otherwise. */
  function PlainBlock(ts: seq<string>, i: nat): (r: (Block, nat))
    requires i < |ts|
  {
    if AutoHeading(ts, i) then (Heading(if i == 0 then 1 else 2, Tokenize(ts[i])), i + 1)
    else (Paragraph(Tokenize(ts[i])), i + 1)
  }

  /** The block of the first rule, from `rule` on, that applies. */
  function NextBlockFrom(ts: seq<string>, i: nat, rule: nat): (r: (Block, nat))
    requires i < |ts| && IsTrimmed(ts[i]) && rule <= 6
    ensures i < r.1 <= |ts|
    decreases 6 - rule
  {
    if BlockRule(ts, i, rule).Some? then BlockRule(ts, i, rule).value else NextBlockFrom(ts, i, rule + 1)
  }

  /** The block that starts at the non-blank trimmed line `ts[i]`, and the index of the line
      after it. */
  function NextBlock(ts: seq<string>, i: nat): (r: (Block, nat))
    requires i < |ts| && ts[i] != "" && IsTrimmed(ts[i])
    ensures i < r.1 <= |ts|
  {
    NextBlockFrom(ts, i, 0)
  }

  lemma {:induction false} NextBlockFromIsFirstRule(ts: seq<string>, i: nat, from: nat, rule: nat)
    requires i < |ts| && IsTrimmed(ts[i]) && from <= rule <= 6
    requires forall q :: from <= q < rule ==> BlockRule(ts, i, q).None?
    requires BlockRule(ts, i, rule).Some?
    ensures NextBlockFrom(ts, i, from) == BlockRule(ts, i, rule).value
    decreases rule - from
  {
    if from < rule {
      NextBlockFromIsFirstRule(ts, i, from + 1, rule);
    }
  }

  /** The block is the one of the first rule that applies, in the order the renderer tries them. */
  lemma NextBlockIsFirstRule(ts: seq<string>, i: nat, rule: nat)
    requires i < |ts| && ts[i] != "" && IsTrimmed(ts[i]) && rule <= 6
    requires forall q :: 0 <= q < rule ==> BlockRule(ts, i, q).None?
    requires BlockRule(ts, i, rule).Some?
    ensures NextBlock(ts, i) == BlockRule(ts, i, rule).value
  {
    NextBlockFromIsFirstRule(ts, i, 0, rule);
  }

  /** What every block satisfies: heading levels 1 to 6, no empty quote or list, and ordered
      items numbered consecutively from 1. */
  predicate WellFormed(b: Block) {
    match b
    case Heading(level, _) => 1 <= level <= 6
    case Quote(ls) => |ls| > 0
    case Bullets(items) => |items| > 0
    case Numbered(entries) => |entries| > 0 && forall k :: 0 <= k < |entries| ==> entries[k].number == k + 1
    case _ => true
  }

  /** What a block read from line `i` up to line `j` looks like: it is well formed; only a quote
      or list takes more than one line, and it holds one entry per line it takes, each line's text
      with its marker stripped. */
  predicate Shaped(ts: seq<string>, i: nat, r: (Block, nat))
    requires i <= r.1 <= |ts|
  {
    var b := r.0;
    && WellFormed(b)
    && (b.Quote? || b.Bullets? || b.Numbered? || r.1 == i + 1)
    && (b.Quote? ==> b.lines == FormatEach(Items(ts, i, r.1, QuoteRun)))
    && (b.Bullets? ==> b.items == FormatEach(Items(ts, i, r.1, BulletRun)))
    && (b.Numbered? ==> b.entries == Numbering(FormatEach(Items(ts, i, r.1, NumberRun))))
  }

  lemma BlockRuleShape(ts: seq<string>, i: nat, rule: nat)
    requires i < |ts| && IsTrimmed(ts[i]) && BlockRule(ts, i, rule).Some?
    ensures Shaped(ts, i, BlockRule(ts, i, rule).value)
  {
  }

  lemma {:induction false} NextBlockFromShape(ts: seq<string>, i: nat, rule: nat)
    requires i < |ts| && IsTrimmed(ts[i]) && rule <= 6
    ensures Shaped(ts, i, NextBlockFrom(ts, i, rule))
    decreases 6 - rule
  {
    if BlockRule(ts, i, rule).Some? {
      BlockRuleShape(ts, i, rule);
    } else {
      NextBlockFromShape(ts, i, rule + 1);
    }
  }

  /** Every block the renderer reads is shaped as `Shaped` says. */
  lemma NextBlockShape(ts: seq<string>, i: nat)
    requires i < |ts| && ts[i] != "" && IsTrimmed(ts[i])
    ensures Shaped(ts, i, NextBlock(ts, i))
  {
    NextBlockFromShape(ts, i, 0);
  }

  /** The blocks of the trimmed lines `ts[i..]`: blank lines are skipped, every other line starts
      a block. */
  function Blocks(ts: seq<string>, i: nat): seq<Block>
    requires i <= |ts| && AllTrimmed(ts)
    decreases |ts| - i, 1
  {
    if i == |ts| then []
    else if ts[i] == "" then Blocks(ts, i + 1)
    else BlocksAt(ts, i)
  }

  /** The block starting at the non-blank line `i`, followed by the blocks after it. */
  function BlocksAt(ts: seq<string>, i: nat): seq<Block>
    requires i < |ts| && AllTrimmed(ts) && ts[i] != ""
    decreases |ts| - i, 0
  {
    [NextBlock(ts, i).0] + Blocks(ts, NextBlock(ts, i).1)
  }

  /** Every block of an article is well formed, and there are no more blocks than lines. */
  lemma {:induction false} BlocksWellFormed(ts: seq<string>, i: nat)
    requires i <= |ts| && AllTrimmed(ts)
    ensures forall k :: 0 <= k < |Blocks(ts, i)| ==> WellFormed(Blocks(ts, i)[k])
    ensures |Blocks(ts, i)| <= |ts| - i
    decreases |ts| - i
  {
    if i < |ts| {
      if ts[i] == "" {
        BlocksWellFormed(ts, i + 1);
      } else {
        NextBlockShape(ts, i);
        BlocksWellFormed(ts, NextBlock(ts, i).1);
      }
    }
  }

  /** Blank lines produce nothing: a body of blank lines renders no block. */
  lemma {:induction false} BlankBodyIsEmpty(ts: seq<string>, i: nat)
    requires i <= |ts| && AllTrimmed(ts)
    requires forall k :: i <= k < |ts| ==> ts[k] == ""
    ensures Blocks(ts, i) == []
    decreases |ts| - i
  {
    if i < |ts| {
      BlankBodyIsEmpty(ts, i + 1);
    }
  }

  /** `items.map(formatInline)`. */
  method FormatAll(items: seq<string>) returns (r: seq<seq<Inline>>)
    ensures r == FormatEach(items)
  {
    r := [];
    var j := 0;
    while j < |items|
      invariant 0 <= j <= |items|
      invariant r == FormatEach(items[..j])
    {
      var parts := FormatInline(items[j]);
      r := r + [parts];
      j := j + 1;
    }
    assert items[..j] == items;
  }

  /** `lines[i].trim()`. */
  method TrimmedLine(lines: seq<string>, i: nat) returns (line: string)
    requires i < |lines|
    ensures line == TrimAll(lines)[i]
  {
    line := Trim(lines[i]);
    TrimAllAt(lines, i);
  }

  /** Whether line `i` continues a run of `kind`, and its text with the marker stripped. */
  method RunLine(lines: seq<string>, i: nat, kind: RunKind) returns (inRun: bool, item: string)
    requires i < |lines|
    ensures inRun == InRun(kind, TrimAll(lines)[i])
    ensures item == Strip(kind, TrimAll(lines)[i])
  {
    var line := TrimmedLine(lines, i);
    inRun := InRun(kind, line);
    item := Strip(kind, line);
  }

  /** The inner loop gathering a run: `i` moves past every line of `kind`, collecting stripped texts. */
  method CollectRun(lines: seq<string>, start: nat, kind: RunKind) returns (items: seq<string>, i: nat)
    requires start <= |lines|
    ensures i == RunEnd(TrimAll(lines), start, kind)
    ensures items == Items(TrimAll(lines), start, i, kind)
  {
    ghost var ts := TrimAll(lines);
    items := [];
    i := start;
    while i < |lines|
      invariant start <= i <= |lines|
      invariant RunEnd(ts, i, kind) == RunEnd(ts, start, kind)
      invariant items == Items(ts, start, i, kind)
      decreases |lines| - i
    {
      var inRun, item := RunLine(lines, i, kind);
      if !inRun {
        return;
      }
      items := items + [item];
      i := i + 1;
    }
  }

  /** A quote or list: the run of `kind` lines from `i` gathered, each item formatted, in one
      element; `next` is the first line after the run. */
  method GatherRun(lines: seq<string>, i: nat, kind: RunKind) returns (element: Block, next: nat)
    requires i < |lines| && InRun(kind, TrimAll(lines)[i])
    ensures element == RunAt(TrimAll(lines), i, kind).0 && next == RunAt(TrimAll(lines), i, kind).1
  {
    var items;
    items, next := CollectRun(lines, i, kind);
    var contents := FormatAll(items);
    match kind
    case QuoteRun => element := Quote(contents);
    case BulletRun => element := Bullets(contents);
    case NumberRun => element := Numbered(Numbering(contents));
  }

  /** One round of the renderer's loop on a line that is not blank once trimmed: the element it
      pushes and the line the next round starts at. */
  method NextElement(lines: seq<string>, i: nat) returns (element: Block, next: nat)
    requires i < |lines| && TrimAll(lines)[i] != ""
    ensures element == NextBlock(TrimAll(lines), i).0 && next == NextBlock(TrimAll(lines), i).1
  {
    ghost var ts := TrimAll(lines);
    var line := TrimmedLine(lines, i);
    if IsRule(line) {
      return Rule, i + 1;
    }
    var headingMatch := HeadingMatch(line);
    assert NextBlock(ts, i) == NextBlockFrom(ts, i, 1);
    if headingMatch.Some? {
      var content := FormatInline(headingMatch.value.1);
      return Heading(headingMatch.value.0, content), i + 1;
    }
    assert NextBlock(ts, i) == NextBlockFrom(ts, i, 2);
    if StartsWith(line, ">") {
      element, next := GatherRun(lines, i, QuoteRun);
      return;
    }
    var imgLineMatch := ImageLine(line);
    assert NextBlock(ts, i) == NextBlockFrom(ts, i, 3);
    if imgLineMatch.Some? {
      return Figure(imgLineMatch.value.alt, imgLineMatch.value.url), i + 1;
    }
    assert NextBlock(ts, i) == NextBlockFrom(ts, i, 4);
    if IsBullet(line) {
      element, next := GatherRun(lines, i, BulletRun);
      return;
    }
    assert NextBlock(ts, i) == NextBlockFrom(ts, i, 5);
    if IsNumbered(line) {
      element, next := GatherRun(lines, i, NumberRun);
      return;
    }
    assert NextBlock(ts, i) == NextBlockFrom(ts, i, 6);
    element, next := PlainElement(lines, i);
  }

  /** The end of the round for a line no markup rule claims: a plain-text heading when the line
      is short, unpunctuated and stands between blank lines, a paragraph otherwise. */
  method PlainElement(lines: seq<string>, i: nat) returns (element: Block, next: nat)
    requires i < |lines|
    ensures element == PlainBlock(TrimAll(lines), i).0 && next == PlainBlock(TrimAll(lines), i).1
  {
    ghost var ts := TrimAll(lines);
    var line := TrimmedLine(lines, i);
    var prevBlank := true;
    if i > 0 {
      var prev := TrimmedLine(lines, i - 1);
      prevBlank := prev == "";
    }
    var nextBlank := true;
    if i < |lines| - 1 {
      var following := TrimmedLine(lines, i + 1);
      nextBlank := following == "";
    }
    assert prevBlank == (i == 0 || ts[i - 1] == "");
    assert nextBlank == (i >= |ts| - 1 || ts[i + 1] == "");
    var content := FormatInline(line);
    if PlainHeading(line, prevBlank, nextBlank) {
      return Heading(if i == 0 then 1 else 2, content), i + 1;
    }
    return Paragraph(content), i + 1;
  }

  /** One round of the renderer's loop from line `i`: nothing for a blank line, otherwise the
      element of the block that starts there. Rendering the rest from `next` completes the blocks
      from `i`. */
  method Round(lines: seq<string>, i: nat) returns (pushed: seq<Block>, next: nat)
    requires i < |lines|
    ensures i < next <= |lines|
    ensures pushed + Blocks(TrimAll(lines), next) == Blocks(TrimAll(lines), i)
  {
    ghost var ts := TrimAll(lines);
    var line := TrimmedLine(lines, i);
    if line == "" {
      return [], i + 1;
    }
    var element;
    element, next := NextElement(lines, i);
    assert Blocks(ts, i) == BlocksAt(ts, i) == [element] + Blocks(ts, next);
    pushed := [element];
  }

  /** `ArticleRenderer`: the blocks of the body split at `\n`, each line trimmed. */
  method Render(body: string) returns (elements: seq<Block>)
    ensures elements == Blocks(TrimAll(Split(body)), 0)
  {
    var lines := Split(body);
    elements := RenderLines(lines);
  }

  /** The loop of the renderer over the lines of the body. */
  method RenderLines(lines: seq<string>) returns (elements: seq<Block>)
    ensures elements == Blocks(TrimAll(lines), 0)
  {
    ghost var ts := TrimAll(lines);
    elements := [];
    var i := 0;
    while i < |lines|
      invariant 0 <= i <= |lines|
      invariant elements + Blocks(ts, i) == Blocks(ts, 0)
      decreases |lines| - i
    {
      var pushed, next := Round(lines, i);
      elements := elements + pushed;
      i := next;
    }
  }
}
