/** `components/CreateContentForm.tsx`: the zod schema the form is checked against, the YouTube
    thumbnail the form fills in from a video URL, and the submit handler. The browser's URL parser
    and zod's URL check are inputs of the form (`parseUrl`, `validUrl`); the request and its
    answer are split at the `await` as in the payment gate: `Submit` sends, `Settle` handles the answer. */
module CreateContentForm {
  import opened Options
  import opened JsStrings
  import ContentRoute

  // ---------------------------------------------------------------------------------------------
  // The schema

  /** The fields of the form, in the order of the schema. */
  datatype Field = Title | Description | EmbedUrl | ThumbnailUrl | Price | CreatorName | Category

  /** Position of a field in the schema. */
  function FieldIndex(f: Field): nat {
    match f
    case Title => 0
    case Description => 1
    case EmbedUrl => 2
    case ThumbnailUrl => 3
    case Price => 4
    case CreatorName => 5
    case Category => 6
  }

  datatype Issue = Issue(field: Field, message: string)

  /** What the inputs hold. A number input read with `valueAsNumber` gives `NaN` when it is empty or
      not a number: that is `price == None`. */
  datatype FormValues = FormValues(
    title: string,
    description: string,
    embedUrl: string,
    thumbnailUrl: string,
    price: Option<real>,
    creatorName: string,
    category: string)

  /** The data handed to `onSubmit`: the values once the schema accepts them. */
  datatype FormData = FormData(
    title: string,
    description: string,
    embedUrl: string,
    thumbnailUrl: string,
    priceInSTX: real,
    creatorName: string,
    category: string)

  /** The inputs of a fresh or reset form. */
  const Blank := FormValues("", "", "", "", None, "", "")

  const MinPrice: real := 0.01
  const MaxPrice: real := 1000000.0

  const TitleShort := "Title must be at least 5 characters"
  const TitleLong := "Title must be at most 100 characters"
  const DescriptionShort := "Description must be at least 20 characters"
  const DescriptionLong := "Description must be at most 1000 characters"
  const BadEmbedUrl := "Please enter a valid URL"
  const BadThumbnailUrl := "Please enter a valid image URL (https://...)"
  const PriceNaN := "Expected number, received nan"
  const PriceLow := "Price must be at least 0.01 STX"
  const PriceHigh := "Price is too high"
  const NameShort := "Creator name must be at least 2 characters"
  const NameLong := "Creator name must be at most 50 characters"

  /** `.min(lo, short).max(hi, long)` on a string: each failing check adds its message, in order. */
  function LengthIssues(f: Field, s: string, lo: nat, hi: nat, short: string, long: string): (issues: seq<Issue>)
    ensures forall i :: 0 <= i < |issues| ==> issues[i].field == f
  {
    (if |s| < lo then [Issue(f, short)] else []) + (if |s| > hi then [Issue(f, long)] else [])
  }

  /** `z.string().url(message)` */
  function UrlIssues(f: Field, s: string, validUrl: string -> bool, message: string): seq<Issue> {
    if validUrl(s) then [] else [Issue(f, message)]
  }

  /** `z.number().min(0.01, …).max(1000000, …)`; `NaN` is not a number to zod. */
  function PriceIssues(p: Option<real>): seq<Issue> {
    match p
    case None => [Issue(Price, PriceNaN)]
    case Some(x) =>
      (if x < MinPrice then [Issue(Price, PriceLow)] else [])
      + (if x > MaxPrice then [Issue(Price, PriceHigh)] else [])
  }

  /** The issues of one field of the schema; the optional category has none. */
  function FieldIssues(v: FormValues, validUrl: string -> bool, f: Field): (issues: seq<Issue>)
    ensures forall i :: 0 <= i < |issues| ==> issues[i].field == f
  {
    match f
    case Title => LengthIssues(Title, v.title, 5, 100, TitleShort, TitleLong)
    case Description => LengthIssues(Description, v.description, 20, 1000, DescriptionShort, DescriptionLong)
    case EmbedUrl => UrlIssues(EmbedUrl, v.embedUrl, validUrl, BadEmbedUrl)
    case ThumbnailUrl => UrlIssues(ThumbnailUrl, v.thumbnailUrl, validUrl, BadThumbnailUrl)
    case Price => PriceIssues(v.price)
    case CreatorName => LengthIssues(CreatorName, v.creatorName, 2, 50, NameShort, NameLong)
    case Category => []
  }

  /** Every issue `createContentSchema` reports, field by field in the order of the schema. */
  function SchemaIssues(v: FormValues, validUrl: string -> bool): seq<Issue> {
    FieldIssues(v, validUrl, Title) + FieldIssues(v, validUrl, Description)
    + FieldIssues(v, validUrl, EmbedUrl) + FieldIssues(v, validUrl, ThumbnailUrl)
    + FieldIssues(v, validUrl, Price) + FieldIssues(v, validUrl, CreatorName)
  }

  /** The bounds of the schema, stated field by field. */
  predicate WithinBounds(v: FormValues, validUrl: string -> bool) {
    && 5 <= |v.title| <= 100
    && 20 <= |v.description| <= 1000
    && validUrl(v.embedUrl) && validUrl(v.thumbnailUrl)
    && v.price.Some? && MinPrice <= v.price.value <= MaxPrice
    && 2 <= |v.creatorName| <= 50
  }

  /** The schema accepts the values exactly when every bound holds; the category is free. */
  lemma SchemaAcceptsIff(v: FormValues, validUrl: string -> bool)
    ensures SchemaIssues(v, validUrl) == [] <==> WithinBounds(v, validUrl)
    ensures forall c :: SchemaIssues(v.(category := c), validUrl) == SchemaIssues(v, validUrl)
  {
  }

  /** The messages of a length check: the short one exactly when the string is too short, the
      long one exactly when it is too long, both about the checked field. */
  lemma LengthMessages(f: Field, s: string, lo: nat, hi: nat, short: string, long: string)
    requires lo <= hi && short != long
    ensures var issues := LengthIssues(f, s, lo, hi, short, long);
      && |issues| <= 1
      && (Issue(f, short) in issues <==> |s| < lo)
      && (Issue(f, long) in issues <==> |s| > hi)
      && (forall i :: 0 <= i < |issues| ==> issues[i].field == f)
  {
  }

  /** An issue about a field can only come from that field's check. */
  lemma IssueOfField(v: FormValues, validUrl: string -> bool, x: Issue)
    ensures x in SchemaIssues(v, validUrl) <==> x in FieldIssues(v, validUrl, x.field)
  {
    var fields := [Title, Description, EmbedUrl, ThumbnailUrl, Price, CreatorName];
    forall f | f in fields && f != x.field ensures x !in FieldIssues(v, validUrl, f) {
    }
  }

  /** A length-checked field reports its short message exactly when the string is too short and
      its long message exactly when it is too long. */
  lemma LengthFieldMessages(v: FormValues, validUrl: string -> bool, f: Field, s: string, lo: nat, hi: nat,
                            short: string, long: string)
    requires FieldIssues(v, validUrl, f) == LengthIssues(f, s, lo, hi, short, long)
    requires lo <= hi && short != long
    ensures Issue(f, short) in SchemaIssues(v, validUrl) <==> |s| < lo
    ensures Issue(f, long) in SchemaIssues(v, validUrl) <==> |s| > hi
  {
    IssueOfField(v, validUrl, Issue(f, short));
    IssueOfField(v, validUrl, Issue(f, long));
    LengthMessages(f, s, lo, hi, short, long);
  }

  /** The title must have 5 to 100 characters. */
  lemma TitleMessages(v: FormValues, validUrl: string -> bool)
    ensures Issue(Title, TitleShort) in SchemaIssues(v, validUrl) <==> |v.title| < 5
    ensures Issue(Title, TitleLong) in SchemaIssues(v, validUrl) <==> |v.title| > 100
  {
    assert |TitleShort| != |TitleLong|;
    LengthFieldMessages(v, validUrl, Title, v.title, 5, 100, TitleShort, TitleLong);
  }

  /** The description must have 20 to 1000 characters. */
  lemma DescriptionMessages(v: FormValues, validUrl: string -> bool)
    ensures Issue(Description, DescriptionShort) in SchemaIssues(v, validUrl) <==> |v.description| < 20
    ensures Issue(Description, DescriptionLong) in SchemaIssues(v, validUrl) <==> |v.description| > 1000
  {
    assert |DescriptionShort| != |DescriptionLong|;
    LengthFieldMessages(v, validUrl, Description, v.description, 20, 1000, DescriptionShort, DescriptionLong);
  }

  /** The creator name must have 2 to 50 characters. */
  lemma CreatorNameMessages(v: FormValues, validUrl: string -> bool)
    ensures Issue(CreatorName, NameShort) in SchemaIssues(v, validUrl) <==> |v.creatorName| < 2
    ensures Issue(CreatorName, NameLong) in SchemaIssues(v, validUrl) <==> |v.creatorName| > 50
  {
    assert NameShort[24] != NameLong[24];
    LengthFieldMessages(v, validUrl, CreatorName, v.creatorName, 2, 50, NameShort, NameLong);
  }

  /** Both URLs must pass zod's URL check, each with its own message. */
  lemma UrlMessages(v: FormValues, validUrl: string -> bool)
    ensures Issue(EmbedUrl, BadEmbedUrl) in SchemaIssues(v, validUrl) <==> !validUrl(v.embedUrl)
    ensures Issue(ThumbnailUrl, BadThumbnailUrl) in SchemaIssues(v, validUrl) <==> !validUrl(v.thumbnailUrl)
  {
    IssueOfField(v, validUrl, Issue(EmbedUrl, BadEmbedUrl));
    IssueOfField(v, validUrl, Issue(ThumbnailUrl, BadThumbnailUrl));
  }

  /** The price must be a number from 0.01 to 1000000. */
  lemma PriceMessages(v: FormValues, validUrl: string -> bool)
    ensures Issue(Price, PriceNaN) in SchemaIssues(v, validUrl) <==> v.price.None?
    ensures Issue(Price, PriceLow) in SchemaIssues(v, validUrl) <==> v.price.Some? && v.price.value < MinPrice
    ensures Issue(Price, PriceHigh) in SchemaIssues(v, validUrl) <==> v.price.Some? && v.price.value > MaxPrice
  {
    IssueOfField(v, validUrl, Issue(Price, PriceNaN));
    IssueOfField(v, validUrl, Issue(Price, PriceLow));
    IssueOfField(v, validUrl, Issue(Price, PriceHigh));
    assert |PriceNaN| != |PriceLow| && |PriceLow| != |PriceHigh| && |PriceNaN| != |PriceHigh|;
  }

  /** The optional category is never the subject of an issue. */
  lemma CategoryIsFree(v: FormValues, validUrl: string -> bool)
    ensures forall i :: 0 <= i < |SchemaIssues(v, validUrl)| ==> SchemaIssues(v, validUrl)[i].field != Category
  {
    var issues := SchemaIssues(v, validUrl);
    forall i | 0 <= i < |issues| ensures issues[i].field != Category {
      IssueOfField(v, validUrl, issues[i]);
    }
  }

  /** `handleSubmit`'s parse: the data `onSubmit` receives, or the issues. */
  datatype Parsed = Invalid(issues: seq<Issue>) | Valid(data: FormData)

  function ParseForm(v: FormValues, validUrl: string -> bool): (r: Parsed)
    ensures r.Valid? <==> WithinBounds(v, validUrl)
    ensures r.Invalid? ==> |r.issues| > 0 && r.issues == SchemaIssues(v, validUrl)
    ensures r.Valid? ==> ToValues(r.data) == v
  {
    SchemaAcceptsIff(v, validUrl);
    var issues := SchemaIssues(v, validUrl);
    if issues != [] then Invalid(issues)
    else Valid(FormData(v.title, v.description, v.embedUrl, v.thumbnailUrl, v.price.value, v.creatorName, v.category))
  }

  /** The inputs that hold the given data. */
  function ToValues(d: FormData): FormValues {
    FormValues(d.title, d.description, d.embedUrl, d.thumbnailUrl, Some(d.priceInSTX), d.creatorName, d.category)
  }

  // ---------------------------------------------------------------------------------------------
  // The YouTube thumbnail

  /** What `new URL(url)` yields that the extractor reads: the host name, the path name and the
      first `v` search parameter (`None` when there is none). */
  datatype ParsedUrl = ParsedUrl(hostname: string, pathname: string, v: Option<string>)

  /** The video id by host: the `v` parameter on a `youtube.com` host (`''` when missing), the path
      without its leading character on a `youtu.be` host, nothing elsewhere. */
  function VideoIdOf(u: ParsedUrl): (id: string)
    ensures Contains(u.hostname, "youtube.com") ==> id == u.v.GetOr("")
    ensures !Contains(u.hostname, "youtube.com") && Contains(u.hostname, "youtu.be") ==>
      (|u.pathname| > 0 ==> id == u.pathname[1..]) && (|u.pathname| == 0 ==> id == "")
    ensures !Contains(u.hostname, "youtube.com") && !Contains(u.hostname, "youtu.be") ==> id == ""
  {
    if Contains(u.hostname, "youtube.com") then u.v.GetOr("")
    else if Contains(u.hostname, "youtu.be") then (if |u.pathname| == 0 then "" else u.pathname[1..])
    else ""
  }

  const ThumbnailPrefix := "https://img.youtube.com/vi/"
  const ThumbnailSuffix := "/hqdefault.jpg"

  /** The high-quality thumbnail of a video. */
  function ThumbnailOf(id: string): string {
    ThumbnailPrefix + id + ThumbnailSuffix
  }

  /** Reads the video id back out of a thumbnail URL. */
  function ThumbnailId(t: string): Option<string> {
    if |t| > |ThumbnailPrefix| + |ThumbnailSuffix|
       && t[..|ThumbnailPrefix|] == ThumbnailPrefix && t[|t| - |ThumbnailSuffix|..] == ThumbnailSuffix
    then Some(t[|ThumbnailPrefix|..|t| - |ThumbnailSuffix|])
    else None
  }

  /** A thumbnail URL names its video: `ThumbnailId` inverts `ThumbnailOf` on non-empty ids, and
      only thumbnail URLs have an id. */
  lemma ThumbnailRoundTrip(id: string, t: string)
    ensures |id| > 0 ==> ThumbnailId(ThumbnailOf(id)) == Some(id)
    ensures ThumbnailId(t).Some? ==> |ThumbnailId(t).value| > 0 && ThumbnailOf(ThumbnailId(t).value) == t
  {
    var p := ThumbnailPrefix;
    var s := ThumbnailSuffix;
    var u := p + id + s;
    assert u[..|p|] == p;
    assert u[|u| - |s|..] == s;
    assert u[|p|..|u| - |s|] == id;
    if ThumbnailId(t).Some? {
      assert t == t[..|p|] + t[|p|..|t| - |s|] + t[|t| - |s|..];
    }
  }

  /** `extractYouTubeThumbnail`; `parsed` is `None` when `new URL` throws. */
  function ExtractYouTubeThumbnail(parsed: Option<ParsedUrl>): (thumb: string)
    ensures thumb == "" <==> parsed.None? || VideoIdOf(parsed.value) == ""
    ensures thumb != "" ==> ThumbnailId(thumb) == Some(VideoIdOf(parsed.value))
  {
    if parsed.Some? && VideoIdOf(parsed.value) != "" then
      ThumbnailRoundTrip(VideoIdOf(parsed.value), "");
      ThumbnailOf(VideoIdOf(parsed.value))
    else ""
  }

  /** A watch URL on a `youtube.com` host gives the thumbnail of its `v` parameter. */
  lemma WatchThumbnail(host: string, path: string, id: string)
    requires Contains(host, "youtube.com") && |id| > 0
    ensures ExtractYouTubeThumbnail(Some(ParsedUrl(host, path, Some(id)))) == ThumbnailOf(id)
  {
  }

  /** A short URL on a `youtu.be` host gives the thumbnail of its path after the `/`. */
  lemma ShortThumbnail(host: string, id: string, v: Option<string>)
    requires Contains(host, "youtu.be") && !Contains(host, "youtube.com") && |id| > 0
    ensures ExtractYouTubeThumbnail(Some(ParsedUrl(host, "/" + id, v))) == ThumbnailOf(id)
  {
    assert ("/" + id)[1..] == id;
  }

  // ---------------------------------------------------------------------------------------------
  // Submitting

  /** `String(n)` for a natural number. */
  function NatToString(n: nat): (r: string)
    ensures |r| > 0 && forall i :: 0 <= i < |r| ==> IsDigit(r[i])
  {
    if n < 10 then ["0123456789"[n]] else NatToString(n / 10) + ["0123456789"[n % 10]]
  }

  /** The value of a string of decimal digits. */
  function DigitsValue(s: string): nat
    requires forall i :: 0 <= i < |s| ==> IsDigit(s[i])
  {
    if |s| == 0 then 0 else assert IsDigit(s[|s| - 1]); 10 * DigitsValue(s[..|s| - 1]) + (s[|s| - 1] as int - '0' as int)
  }

  /** The status in a "Server error" message is the status: reading the digits back gives it. */
  lemma {:induction false} NatToStringRoundTrip(n: nat)
    ensures DigitsValue(NatToString(n)) == n
  {
    var r := NatToString(n);
    if n >= 10 {
      NatToStringRoundTrip(n / 10);
      assert r[..|r| - 1] == NatToString(n / 10);
    }
  }

  /** The request body: the data with the wallet address; no content type and no article body, so
      the server stores a video. */
  function RequestBody(d: FormData, address: string): ContentRoute.CreateBody {
    ContentRoute.CreateBody(
      Some(d.title), Some(d.description), Some(d.thumbnailUrl), Some(d.priceInSTX), Some(address),
      Some(d.creatorName), None, Some(d.embedUrl), None, Some(d.category))
  }

  /** Form and server agree: data the schema accepts, sent with a wallet address, passes every guard
      of the create handler, provided the empty string is not a valid URL. The record stored is a
      video with the form's fields. */
  lemma SubmittedFormIsAccepted(v: FormValues, validUrl: string -> bool, address: string)
    requires ParseForm(v, validUrl).Valid? && address != "" && !validUrl("")
    ensures var b := RequestBody(ParseForm(v, validUrl).data, address);
      && ContentRoute.Validate(b).Accept?
      && ContentRoute.Validate(b).fields.contentType == Some("video")
      && ContentRoute.Validate(b).fields.embedUrl == v.embedUrl
      && ContentRoute.Validate(b).fields.priceInSTX == v.price.value
      && ContentRoute.Validate(b).fields.articleBody.None?
  {
    var b := RequestBody(ParseForm(v, validUrl).data, address);
    assert v.thumbnailUrl != "" && v.embedUrl != "";
    ContentRoute.AcceptedIff(b);
    ContentRoute.AcceptedRecord(b);
  }

  /** What the create request produced: an exception (the request failed, or the answer could not
      be read), a response that is not ok with its body read as JSON (`None` when it is not JSON;
      otherwise its `error` field), or a created record's id. */
  datatype PostResult =
    | Threw(message: string)
    | NotOk(status: nat, error: Option<Option<string>>)
    | Created(id: string)

  datatype Level = ErrorToast | SuccessToast

  datatype Effect =
    | Toast(level: Level, message: string)
    | Post(body: ContentRoute.CreateBody)
    | NotifySuccess(contentId: string)   // `onSuccess(newContent.id)`

  const NotConnected := "Wallet not connected"
  const CreateFailed := "Failed to create content"
  const CreatedMessage := "Content created successfully!"

  /** The message of the error a response that is not ok is turned into. */
  function FailureMessage(status: nat, error: Option<Option<string>>): (m: string)
    ensures error.None? ==> m == "Server error (" + NatToString(status) + ")"
    ensures error.Some? && Truthy(error.value) ==> m == error.value.value
    ensures error.Some? && !Truthy(error.value) ==> m == CreateFailed
  {
    match error
    case None => "Server error (" + NatToString(status) + ")"
    case Some(e) => if Truthy(e) then e.value else CreateFailed
  }

  /** The effects of the answer: one error toast, or a success toast then `onSuccess` when given. */
  function Answer(result: PostResult, notify: bool): seq<Effect> {
    match result
    case Threw(message) => [Toast(ErrorToast, message)]
    case NotOk(status, error) => [Toast(ErrorToast, FailureMessage(status, error))]
    case Created(id) => [Toast(SuccessToast, CreatedMessage)] + (if notify then [NotifySuccess(id)] else [])
  }

  /** An answer toasts exactly once; it is a success exactly when the record was created, and only
      then is `onSuccess` called. */
  lemma AnswerShape(result: PostResult, notify: bool)
    ensures var a := Answer(result, notify);
      && |a| >= 1 && a[0].Toast?
      && (forall i :: 1 <= i < |a| ==> !a[i].Toast?)
      && (a[0].level == SuccessToast <==> result.Created?)
      && ((exists i :: 0 <= i < |a| && a[i].NotifySuccess?) <==> result.Created? && notify)
      && (forall i :: 0 <= i < |a| ==> !a[i].Post?)
  {
    var a := Answer(result, notify);
    if result.Created? && notify {
      assert a[1].NotifySuccess?;
    }
  }

  class CreateContentForm {
    /** `new URL(...)`, `None` when it throws. */
    const parseUrl: string -> Option<ParsedUrl>
    /** zod's `.url()` check. */
    const validUrl: string -> bool
    /** Whether an `onSuccess` callback was passed. */
    const notify: bool

    var values: FormValues
    var errors: seq<Issue>
    var isSubmitting: bool
    /** What the last submission did, in order. */
    var effects: seq<Effect>

    constructor (parseUrl: string -> Option<ParsedUrl>, validUrl: string -> bool, notify: bool)
      ensures this.parseUrl == parseUrl && this.validUrl == validUrl && this.notify == notify
      ensures values == Blank && errors == [] && !isSubmitting && effects == []
    {
      this.parseUrl := parseUrl;
      this.validUrl := validUrl;
      this.notify := notify;
      values := Blank;
      errors := [];
      isSubmitting := false;
      effects := [];
    }

    /** Typing into the video URL input: the value changes, and the thumbnail input is overwritten
        only when a thumbnail could be extracted from the new URL. */
    method EditEmbedUrl(url: string)
      modifies this
      ensures var thumb := ExtractYouTubeThumbnail(parseUrl(url));
        && (thumb != "" ==> values == old(values).(embedUrl := url, thumbnailUrl := thumb))
        && (thumb == "" ==> values == old(values).(embedUrl := url))
      ensures errors == old(errors) && isSubmitting == old(isSubmitting) && effects == old(effects)
    {
      values := values.(embedUrl := url);
      var thumb := ExtractYouTubeThumbnail(parseUrl(url));
      if thumb != "" {
        values := values.(thumbnailUrl := thumb);
      }
    }

    /** The submit button, disabled while a submission is under way. When the schema rejects the
        values, the issues are shown and nothing else happens. Without a wallet address the error
        toast is the only effect: no request is sent and `isSubmitting` stays false. Otherwise the
        form is marked as submitting and the body is posted. */
    method Submit(address: Option<string>)
      requires !isSubmitting
      modifies this
      ensures values == old(values)
      ensures ParseForm(values, validUrl).Invalid? ==>
        errors == ParseForm(values, validUrl).issues && !isSubmitting && effects == old(effects)
      ensures ParseForm(values, validUrl).Valid? && !Truthy(address) ==>
        errors == [] && !isSubmitting && effects == [Toast(ErrorToast, NotConnected)]
      ensures ParseForm(values, validUrl).Valid? && Truthy(address) ==>
        errors == [] && isSubmitting && effects == [Post(RequestBody(ParseForm(values, validUrl).data, address.value))]
    {
      var parsed := ParseForm(values, validUrl);
      if parsed.Invalid? {
        errors := parsed.issues;
        return;
      }
      errors := [];
      if !Truthy(address) {
        effects := [Toast(ErrorToast, NotConnected)];
        return;
      }
      isSubmitting := true;
      effects := [Post(RequestBody(parsed.data, address.value))];
    }

    /** The answer to the request: the form is reset only when the record was created, and
        `isSubmitting` is false again whatever the answer. */
    method Settle(result: PostResult)
      requires isSubmitting
      modifies this
      ensures !isSubmitting
      ensures effects == old(effects) + Answer(result, notify)
      ensures result.Created? ==> values == Blank
      ensures !result.Created? ==> values == old(values)
      ensures errors == old(errors)
    {
      match result {
      case Threw(message) =>
        effects := effects + [Toast(ErrorToast, message)];
      case NotOk(status, error) =>
        effects := effects + [Toast(ErrorToast, FailureMessage(status, error))];
      case Created(id) =>
        values := Blank;
        effects := effects + [Toast(SuccessToast, CreatedMessage)];
        if notify {
          effects := effects + [NotifySuccess(id)];
        }
      }
      isSubmitting := false;
    }
  }
}
