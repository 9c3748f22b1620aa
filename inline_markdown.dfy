/** `formatInline` of `components/ArticleRenderer.tsx`: splits a line into images, bold, italic,
    inline code, links and plain-text runs, trying the rules in that order at the front of what
    remains. The regular expressions are written out as matchers over `seq<char>`. */
module InlineMarkdown {
  import opened Options
  import opened JsStrings

  datatype Inline =
    | Image(alt: string, url: string)
    | Bold(text: string)
    | Italic(text: string)
    | Code(text: string)
    | Link(text: string, url: string)
    | Text(text: string)

  /** The characters that end a plain-text run: `[*`!\[]`. */
  predicate IsSpecial(c: char) {
    c == '*' || c == '`' || c == '!' || c == '['
  }

  /** The text a token was read from. */
  function SourceOf(t: Inline): string {
    match t
    case Image(alt, url) => "![" + alt + "](" + url + ")"
    case Bold(x) => "**" + x + "**"
    case Italic(x) => "*" + x + "*"
    case Code(x) => "`" + x + "`"
    case Link(x, url) => "[" + x + "](" + url + ")"
    case Text(x) => x
  }

  /** The first index at or after `from` holding `c`. */
  function IndexOf(s: string, c: char, from: nat): (r: Option<nat>)
    requires from <= |s|
    ensures r.Some? ==> from <= r.value < |s| && s[r.value] == c
    ensures r.Some? ==> forall k :: from <= k < r.value ==> s[k] != c
    ensures r.None? ==> forall k :: from <= k < |s| ==> s[k] != c
    decreases |s| - from
  {
    if from == |s| then None
    else if s[from] == c then Some(from)
    else IndexOf(s, c, from + 1)
  }

  /** `w` occurs in `s` at index `i`, compared character by character. */
  predicate At(s: string, i: nat, w: string)
    decreases |w|
  {
    i <= |s| && (|w| == 0 || (i < |s| && s[i] == w[0] && At(s, i + 1, w[1..])))
  }

  lemma {:induction false} AtFits(s: string, i: nat, w: string)
    requires At(s, i, w)
    ensures i + |w| <= |s|
    decreases |w|
  {
    if |w| > 0 {
      AtFits(s, i + 1, w[1..]);
    }
  }

  lemma {:induction false} AtIsSlice(s: string, i: nat, w: string)
    ensures At(s, i, w) <==> i + |w| <= |s| && s[i..i + |w|] == w
    decreases |w|
  {
    if |w| > 0 && i < |s| {
      AtIsSlice(s, i + 1, w[1..]);
      if i + |w| <= |s| {
        assert s[i..i + |w|] == [s[i]] + s[i + 1..i + |w|];
      }
    }
  }

  /** Lazy `(.+?)` followed by `delim`, the content starting at `pos - 1`: the smallest end
      `e >= pos` where `delim` follows, with no line terminator in between. */
  function CloseFrom(s: string, pos: nat, delim: string): (r: Option<nat>)
    requires pos <= |s|
    ensures r.Some? ==> pos <= r.value && At(s, r.value, delim)
    ensures r.Some? ==> forall k :: pos <= k < r.value ==> !IsLineTerminator(s[k])
    decreases |s| - pos
  {
    if At(s, pos, delim) then Some(pos)
    else if pos < |s| && !IsLineTerminator(s[pos]) then CloseFrom(s, pos + 1, delim)
    else None
  }

  /** The close `CloseFrom` finds is the first one: no earlier end is followed by `delim`. */
  lemma {:induction false} CloseFromIsFirst(s: string, pos: nat, delim: string)
    requires pos <= |s|
    ensures CloseFrom(s, pos, delim).Some? ==>
      forall e :: pos <= e < CloseFrom(s, pos, delim).value ==> !At(s, e, delim)
    decreases |s| - pos
  {
    if !At(s, pos, delim) && pos < |s| && !IsLineTerminator(s[pos]) {
      CloseFromIsFirst(s, pos + 1, delim);
    }
  }

  /** `^!\[([^\]]*)\]\(([^)]+)\)` */
  function MatchImage(s: string): (r: Option<Inline>)
    ensures r.Some? ==> r.value.Image? && |SourceOf(r.value)| <= |s|
  {
    if |s| < 2 || s[0] != '!' || s[1] != '[' then None
    else match IndexOf(s, ']', 2)
      case None => None
      case Some(j) =>
        if j + 1 >= |s| || s[j + 1] != '(' then None
        else match IndexOf(s, ')', j + 2)
          case None => None
          case Some(k) =>
            if k == j + 2 then None
            else
              Some(Image(s[2..j], s[j + 2..k]))
  }

  /** `^\[([^\]]+)\]\(([^)]+)\)` */
  function MatchLink(s: string): (r: Option<Inline>)
    ensures r.Some? ==> r.value.Link? && |SourceOf(r.value)| <= |s|
  {
    if |s| < 1 || s[0] != '[' then None
    else match IndexOf(s, ']', 1)
      case None => None
      case Some(j) =>
        if j == 1 || j + 1 >= |s| || s[j + 1] != '(' then None
        else match IndexOf(s, ')', j + 2)
          case None => None
          case Some(k) =>
            if k == j + 2 then None
            else
              Some(Link(s[1..j], s[j + 2..k]))
  }

  /** The parts of an image or link: the alternative text stops at the first `]`, the link text
      is not empty, and the URL is a non-empty run up to the first `)`. */
  lemma BracketedParts(s: string)
    ensures MatchImage(s).Some? ==> var m := MatchImage(s).value;
      && (forall k :: 0 <= k < |m.alt| ==> m.alt[k] != ']')
      && m.url != [] && (forall k :: 0 <= k < |m.url| ==> m.url[k] != ')')
    ensures MatchLink(s).Some? ==> var m := MatchLink(s).value;
      && m.text != [] && (forall k :: 0 <= k < |m.text| ==> m.text[k] != ']')
      && m.url != [] && (forall k :: 0 <= k < |m.url| ==> m.url[k] != ')')
  {
  }

  /** The text up to a `](...)` tail splits into the opening, the bracketed text, and the tail. */
  lemma Bracketed(s: string, a: nat, j: nat, k: nat)
    requires a <= j && j + 2 <= k < |s| && s[j] == ']' && s[j + 1] == '(' && s[k] == ')'
    ensures s[..k + 1] == s[..a] + s[a..j] + "](" + s[j + 2..k] + ")"
  {
    assert s[j..j + 2] == "](" && s[k..k + 1] == ")";
    assert s[..k + 1] == s[..a] + s[a..j] + s[j..j + 2] + s[j + 2..k] + s[k..k + 1];
  }

  /** An image is read from the front of `s`: its source text is a prefix of `s`. */
  lemma ImagePrefix(s: string)
    ensures MatchImage(s).Some? ==> StartsWith(s, SourceOf(MatchImage(s).value))
  {
    if MatchImage(s).Some? {
      var j := IndexOf(s, ']', 2).value;
      var k := IndexOf(s, ')', j + 2).value;
      Bracketed(s, 2, j, k);
      assert s[..2] == "![";
    }
  }

  /** A link is read from the front of `s`: its source text is a prefix of `s`. */
  lemma LinkPrefix(s: string)
    ensures MatchLink(s).Some? ==> StartsWith(s, SourceOf(MatchLink(s).value))
  {
    if MatchLink(s).Some? {
      var j := IndexOf(s, ']', 1).value;
      var k := IndexOf(s, ')', j + 2).value;
      Bracketed(s, 1, j, k);
      assert s[..1] == "[";
    }
  }

  /** `IndexOf` finds exactly the first occurrence at or after `from`. */
  lemma IndexOfIs(s: string, c: char, from: nat, j: nat)
    requires from <= j < |s| && s[j] == c && forall k :: from <= k < j ==> s[k] != c
    ensures IndexOf(s, c, from) == Some(j)
  {
  }

  /** Every image source is read as that image, whatever follows it: an alternative text without
      `]`, then a non-empty URL without `)`. */
  lemma ImageFound(alt: string, url: string, rest: string)
    requires ']' !in alt && ')' !in url && url != []
    ensures MatchImage("![" + alt + "](" + url + ")" + rest) == Some(Image(alt, url))
  {
    var s := "![" + alt + "](" + url + ")" + rest;
    var j := 2 + |alt|;
    var k := j + 2 + |url|;
    assert s[0] == '!' && s[1] == '[';
    assert forall i :: 2 <= i < j ==> s[i] == alt[i - 2];
    assert s[j] == ']' && s[j + 1] == '(';
    assert forall i :: j + 2 <= i < k ==> s[i] == url[i - j - 2];
    assert s[k] == ')';
    IndexOfIs(s, ']', 2, j);
    IndexOfIs(s, ')', j + 2, k);
    assert s[2..j] == alt && s[j + 2..k] == url;
  }

  /** Every link source is read as that link, whatever follows it: a non-empty text without `]`,
      then a non-empty URL without `)`. */
  lemma LinkFound(text: string, url: string, rest: string)
    requires text != [] && ']' !in text && ')' !in url && url != []
    ensures MatchLink("[" + text + "](" + url + ")" + rest) == Some(Link(text, url))
  {
    var s := "[" + text + "](" + url + ")" + rest;
    var j := 1 + |text|;
    var k := j + 2 + |url|;
    assert s[0] == '[';
    assert forall i :: 1 <= i < j ==> s[i] == text[i - 1];
    assert s[j] == ']' && s[j + 1] == '(';
    assert forall i :: j + 2 <= i < k ==> s[i] == url[i - j - 2];
    assert s[k] == ')';
    IndexOfIs(s, ']', 1, j);
    IndexOfIs(s, ')', j + 2, k);
    assert s[1..j] == text && s[j + 2..k] == url;
  }

  /** `^D(.+?)D` for the delimiter `D`: the shortest non-empty content, free of line terminators,
      that `D` closes. Returns the content. */
  function MatchDelimited(s: string, delim: string): (r: Option<string>)
    requires delim != ""
    ensures r.Some? ==> 2 * |delim| + |r.value| <= |s| && r.value != ""
  {
    var m := |delim|;
    if !At(s, 0, delim) || m >= |s| || IsLineTerminator(s[m]) then None
    else match CloseFrom(s, m + 1, delim)
      case None => None
      case Some(e) =>
        AtFits(s, e, delim);
        Some(s[m..e])
  }

  /** A delimited span is read from the front of `s`: the delimiter, the content without a line
      terminator, the delimiter again. */
  lemma DelimitedPrefix(s: string, delim: string)
    requires delim != ""
    ensures MatchDelimited(s, delim).Some? ==> var c := MatchDelimited(s, delim).value;
      && StartsWith(s, delim + c + delim)
      && forall k :: 0 <= k < |c| ==> !IsLineTerminator(c[k])
  {
    var m := |delim|;
    if MatchDelimited(s, delim).Some? {
      var e := CloseFrom(s, m + 1, delim).value;
      var c := s[m..e];
      AtIsSlice(s, 0, delim);
      AtIsSlice(s, e, delim);
      assert s[..m + |c| + m] == s[..m] + c + s[e..e + m];
    }
  }

  /** `.+?` is lazy: the content is the shortest one a closing delimiter follows. */
  lemma ShortestContent(s: string, delim: string)
    requires delim != ""
    ensures MatchDelimited(s, delim).Some? ==>
      forall e :: |delim| < e < |delim| + |MatchDelimited(s, delim).value| ==> !At(s, e, delim)
  {
    if |delim| < |s| {
      CloseFromIsFirst(s, |delim| + 1, delim);
    }
  }

  /** `CloseFrom` finds an end `e` that `delim` follows when no line terminator and no earlier
      `delim` comes before it. */
  lemma {:induction false} CloseFromIs(s: string, pos: nat, delim: string, e: nat)
    requires pos <= e && At(s, e, delim)
    requires forall k :: pos <= k < e ==> !IsLineTerminator(s[k]) && !At(s, k, delim)
    ensures CloseFrom(s, pos, delim) == Some(e)
    decreases e - pos
  {
    if pos < e {
      CloseFromIs(s, pos + 1, delim, e);
    }
  }

  /** Every delimited span is read, whatever follows it: non-empty content without a line
      terminator, inside which no earlier closing delimiter starts. */
  lemma DelimitedFound(delim: string, c: string, rest: string)
    requires delim != "" && c != [] && forall k :: 0 <= k < |c| ==> !IsLineTerminator(c[k])
    requires forall e :: |delim| < e < |delim| + |c| ==> !At(delim + c + delim + rest, e, delim)
    ensures MatchDelimited(delim + c + delim + rest, delim) == Some(c)
  {
    var s := delim + c + delim + rest;
    var m := |delim|;
    var end := m + |c|;
    assert s[..m] == delim;
    AtIsSlice(s, 0, delim);
    assert s[end..end + m] == delim;
    AtIsSlice(s, end, delim);
    assert forall k :: m <= k < end ==> s[k] == c[k - m];
    CloseFromIs(s, m + 1, delim, end);
    assert s[m..end] == c;
  }

  /** The index, within `s[1..]`, of its first special character: `s.slice(1).search(/[*`!\[]/)`. */
  function NextSpecial(s: string): (r: Option<nat>)
    requires |s| > 0
    ensures r.Some? ==> r.value + 1 < |s| && IsSpecial(s[r.value + 1])
    ensures r.Some? ==> forall k :: 1 <= k <= r.value ==> !IsSpecial(s[k])
    ensures r.None? ==> forall k :: 1 <= k < |s| ==> !IsSpecial(s[k])
  {
    FirstSpecialFrom(s, 1)
  }

  function FirstSpecialFrom(s: string, from: nat): (r: Option<nat>)
    requires 1 <= from <= |s|
    ensures r.Some? ==> from <= r.value + 1 < |s| && IsSpecial(s[r.value + 1])
    ensures r.Some? ==> forall k :: from <= k <= r.value ==> !IsSpecial(s[k])
    ensures r.None? ==> forall k :: from <= k < |s| ==> !IsSpecial(s[k])
    decreases |s| - from
  {
    if from == |s| then None
    else if IsSpecial(s[from]) then Some(from - 1)
    else FirstSpecialFrom(s, from + 1)
  }

  /** The five markup rules, numbered in the order they are tried: image, bold, italic, code, link. */
  function TryRule(s: string, rule: nat): (r: Option<Inline>)
    ensures r.Some? ==> 1 <= |SourceOf(r.value)| <= |s| && !r.value.Text?
  {
    if rule == 0 then MatchImage(s)
    else if rule == 1 then (if MatchDelimited(s, "**").Some? then Some(Bold(MatchDelimited(s, "**").value)) else None)
    else if rule == 2 then (if MatchDelimited(s, "*").Some? then Some(Italic(MatchDelimited(s, "*").value)) else None)
    else if rule == 3 then (if MatchDelimited(s, "`").Some? then Some(Code(MatchDelimited(s, "`").value)) else None)
    else MatchLink(s)
  }

  /** The plain-text run at the front of `s`: up to the next special character after the first
      character, or all of `s`. */
  function PlainRun(s: string): (t: Inline)
    requires |s| > 0
    ensures t.Text? && 1 <= |t.text| <= |s|
  {
    match NextSpecial(s)
    case None => Text(s)
    case Some(n) => Text(s[..n + 1])
  }

  /** The plain-text run is a prefix of `s` that holds a special character at most first, and
      stops only at a special character. */
  lemma PlainRunShape(s: string)
    requires |s| > 0
    ensures StartsWith(s, PlainRun(s).text)
    ensures forall q :: 1 <= q < |PlainRun(s).text| ==> !IsSpecial(PlainRun(s).text[q])
    ensures |PlainRun(s).text| < |s| ==> IsSpecial(s[|PlainRun(s).text|])
  {
  }

  /** The token of the first rule, from `rule` on, that matches; the plain-text run when none does. */
  function StepFrom(s: string, rule: nat): (t: Inline)
    requires |s| > 0 && rule <= 5
    ensures 1 <= |SourceOf(t)| <= |s|
    ensures t.Text? ==> t == PlainRun(s)
    decreases 5 - rule
  {
    if rule == 5 then PlainRun(s)
    else if TryRule(s, rule).Some? then TryRule(s, rule).value
    else StepFrom(s, rule + 1)
  }

  /** The token read at the front of a non-empty `s`. */
  function Step(s: string): (t: Inline)
    requires |s| > 0
    ensures 1 <= |SourceOf(t)| <= |s|
  {
    StepFrom(s, 0)
  }

  /** Whatever rule reads it, a token is a prefix of the text it is read from. */
  lemma {:induction false} StepFromIsPrefix(s: string, rule: nat)
    requires |s| > 0 && rule <= 5
    ensures StartsWith(s, SourceOf(StepFrom(s, rule)))
    decreases 5 - rule
  {
    if rule == 5 {
      PlainRunShape(s);
    } else if TryRule(s, rule).Some? {
      ImagePrefix(s);
      LinkPrefix(s);
      DelimitedPrefix(s, "**");
      DelimitedPrefix(s, "*");
      DelimitedPrefix(s, "`");
    } else {
      StepFromIsPrefix(s, rule + 1);
    }
  }

  lemma {:induction false} StepFromIsFirstMatch(s: string, from: nat, rule: nat)
    requires |s| > 0 && from <= rule <= 5
    requires forall q :: from <= q < rule ==> TryRule(s, q).None?
    ensures rule < 5 && TryRule(s, rule).Some? ==> StepFrom(s, from) == TryRule(s, rule).value
    ensures rule == 5 ==> StepFrom(s, from) == PlainRun(s)
    decreases rule - from
  {
    if from < rule {
      StepFromIsFirstMatch(s, from + 1, rule);
    }
  }

  /** The token is the one of the first rule that matches, in the order image, bold, italic,
      code, link; a plain-text run is read only when no rule matches. */
  lemma StepIsFirstMatch(s: string, rule: nat)
    requires |s| > 0 && rule <= 5
    requires forall q :: 0 <= q < rule ==> TryRule(s, q).None?
    ensures rule < 5 && TryRule(s, rule).Some? ==> Step(s) == TryRule(s, rule).value
    ensures rule == 5 ==> Step(s) == PlainRun(s)
  {
    StepFromIsFirstMatch(s, 0, rule);
  }

  /** The tokens of `s`, front to back. */
  function Tokenize(s: string): seq<Inline>
    decreases |s|, 2, 0
  {
    if |s| == 0 then [] else TokenizeFrom(s, 0)
  }

  /** The tokens of a non-empty `s` when its first token is read by a rule from `rule` on. */
  function TokenizeFrom(s: string, rule: nat): seq<Inline>
    requires |s| > 0 && rule <= 5
    decreases |s|, 1, 5 - rule
  {
    if rule == 5 then Chop(s, PlainRun(s))
    else if TryRule(s, rule).Some? then Chop(s, TryRule(s, rule).value)
    else TokenizeFrom(s, rule + 1)
  }

  /** `t`, read from the front of `s`, followed by the tokens of what remains. */
  function Chop(s: string, t: Inline): seq<Inline>
    requires 1 <= |SourceOf(t)| <= |s|
    decreases |s|, 0, 0
  {
    [t] + Tokenize(s[|SourceOf(t)|..])
  }

  lemma {:induction false} TokenizeFromStep(s: string, rule: nat)
    requires |s| > 0 && rule <= 5
    ensures TokenizeFrom(s, rule) == Chop(s, StepFrom(s, rule))
    decreases 5 - rule
  {
    if rule < 5 && TryRule(s, rule).None? {
      TokenizeFromStep(s, rule + 1);
    }
  }

  /** A non-empty text is its first token followed by the tokens of the rest. */
  lemma TokenizeStep(s: string)
    requires |s| > 0
    ensures Tokenize(s) == Chop(s, Step(s))
    ensures Tokenize(s) == [Step(s)] + Tokenize(s[|SourceOf(Step(s))|..])
  {
    TokenizeFromStep(s, 0);
  }

  function Sources(ts: seq<Inline>): string
    decreases |ts|
  {
    if |ts| == 0 then "" else SourceOf(ts[0]) + Sources(ts[1..])
  }

  lemma SourcesCons(t: Inline, rest: seq<Inline>)
    ensures Sources([t] + rest) == SourceOf(t) + Sources(rest)
  {
    assert ([t] + rest)[1..] == rest;
  }

  /** Nothing is lost or reordered: the tokens' source texts, concatenated, give back the line. */
  lemma {:induction false} TokenizeLossless(s: string)
    ensures Sources(Tokenize(s)) == s
    decreases |s|, 1
  {
    if |s| > 0 {
      StepFromIsPrefix(s, 0);
      TokenizeStep(s);
      ChopLossless(s, Step(s));
    }
  }

  lemma {:induction false} ChopLossless(s: string, t: Inline)
    requires 1 <= |SourceOf(t)| <= |s| && StartsWith(s, SourceOf(t))
    ensures Sources(Chop(s, t)) == s
    decreases |s|, 0
  {
    var n := |SourceOf(t)|;
    var rest := Tokenize(s[n..]);
    assert Sources(rest) == s[n..] by { TokenizeLossless(s[n..]); }
    SourcesCons(t, rest);
    assert s == s[..n] + s[n..];
  }

  /** A plain-text run is never empty and holds a special character at most as its first
      character; the run that ends the line is the whole rest of it. */
  lemma {:induction false} TextRuns(s: string)
    ensures forall k :: 0 <= k < |Tokenize(s)| && Tokenize(s)[k].Text? ==>
      Tokenize(s)[k].text != "" && forall q :: 1 <= q < |Tokenize(s)[k].text| ==> !IsSpecial(Tokenize(s)[k].text[q])
    decreases |s|
  {
    if |s| > 0 {
      var t := Step(s);
      TextRuns(s[|SourceOf(t)|..]);
      TokenizeStep(s);
      PlainRunShape(s);
    }
  }

  /** One round of `formatInline`'s loop: the first rule that matches at the front of `remaining`,
      or the plain-text run up to the next special character (all of `remaining` when there is none). */
  method NextToken(remaining: string) returns (token: Inline)
    requires |remaining| > 0
    ensures token == Step(remaining)
  {
    var imgMatch := MatchImage(remaining);
    if imgMatch.Some? {
      StepIsFirstMatch(remaining, 0);
      return imgMatch.value;
    }
    var boldMatch := MatchDelimited(remaining, "**");
    if boldMatch.Some? {
      StepIsFirstMatch(remaining, 1);
      return Bold(boldMatch.value);
    }
    var italicMatch := MatchDelimited(remaining, "*");
    if italicMatch.Some? {
      StepIsFirstMatch(remaining, 2);
      return Italic(italicMatch.value);
    }
    var codeMatch := MatchDelimited(remaining, "`");
    if codeMatch.Some? {
      StepIsFirstMatch(remaining, 3);
      return Code(codeMatch.value);
    }
    var linkMatch := MatchLink(remaining);
    if linkMatch.Some? {
      StepIsFirstMatch(remaining, 4);
      return linkMatch.value;
    }
    StepIsFirstMatch(remaining, 5);
    var nextSpecial := NextSpecial(remaining);
    if nextSpecial.None? {
      return Text(remaining);
    }
    token := Text(remaining[..nextSpecial.value + 1]);
  }

  /** `formatInline`: every round takes one token off the front of `remaining`. */
  method FormatInline(text: string) returns (parts: seq<Inline>)
    ensures parts == Tokenize(text)
  {
    parts := [];
    var remaining := text;
    while |remaining| > 0
      invariant parts + Tokenize(remaining) == Tokenize(text)
      decreases |remaining|
    {
      var token := NextToken(remaining);
      var n := |SourceOf(token)|;
      assert (parts + [token]) + Tokenize(remaining[n..]) == Tokenize(text) by {
        TokenizeStep(remaining);
      }
      parts := parts + [token];
      remaining := remaining[n..];
    }
  }
}
