# PayStream core, modelled in Dafny

PayStream is a pay-per-view content site. Creators publish videos or articles priced in STX.
Viewers unlock an item by paying through an HTTP 402 ("Payment Required", section 15.5.3 of
RFC 9110) exchange signed in a Stacks wallet. This project models the logic behind that site and
proves properties of it. It does not model the React pages.

It covers these parts:

- the client payment flow of `PaymentGate` (`handlePay` with its `onFinish` and `onCancel`
  callbacks), as a class whose `phase` and `isPaying` fields change step by step and whose
  observable actions are appended to an `effects` trace;
- the content API route: `GET` strips article bodies, and `POST` runs its guard chain and builds
  the stored record;
- the JSON-file content repository (`lib/db.ts`), as a class over an in-memory sequence;
- the article renderer: the inline tokenizer `formatInline` and the line-level block loop;
- the embed-URL normaliser `getEmbedUrl`;
- the create-content form: the zod schema, the YouTube thumbnail extractor, the submit guard
  and the handling of the POST response;
- the explore page: distinct categories, the search and category filter, and the chip toggle;
- the wallet store (`setAddress`, `clearWallet`);
- the navbar: `truncateAddress` and the connect and disconnect handlers.

Modules follow the source files:

| module | file |
|---|---|
| `Options`, `ContentModel` | the `Content` record of `lib/types.ts` and JS truthiness |
| `JsStrings` | the string built-ins the code relies on (`trim`, `split('\n')`, `includes`, ASCII `toLowerCase`) |
| `Db` | `lib/db.ts` |
| `ContentRoute` | `app/api/content/route.ts` |
| `InlineMarkdown`, `ArticleRenderer` | `components/ArticleRenderer.tsx` |
| `VideoPlayer` | `components/VideoPlayer.tsx` |
| `CreateContentForm` | `components/CreateContentForm.tsx` |
| `Explore` | `app/explore/page.tsx` |
| `WalletStore` | `lib/store.ts` |
| `Navbar` | `components/Navbar.tsx` |
| `PaymentGate` | `components/PaymentGate.tsx` |

The `Content` interface of `lib/types.ts` has no `contentType` and no `articleBody`. The content
route writes both, so the model's record carries them as optional fields, following the code.

JavaScript truthiness is modelled explicitly:
- an optional string is an `Option<string>`;
- `Some("")` is falsy;
- a price of `0.0` is falsy.

Regular expressions are hand-written matchers over `seq<char>`:
- `.` excludes the JavaScript line terminators;
- `\s` and `trim` use the ECMAScript white-space set;
- `\d` and `\w` are ASCII.

## Model

| member | source | states |
|---|---|---|
| ContentModel.Create | lib/db.ts:49-54 | the stored record keeps every supplied field, takes the given id and creation time, and starts with 0 views |
| ContentModel.MergeLaws | lib/db.ts:70 | spreading an empty update changes nothing; spreading the same update twice is the same as spreading it once |
| ContentModel.ViewsOnlyUpdate | lib/db.ts:62-70 | an update carrying only `views` changes only `views` |
| Db.IndexOfId | lib/db.ts:67-68 | `findIndex`: the index of the first record with the id, and none exactly when no record has the id |
| Db.ContentRepository.constructor | lib/db.ts:24-33 | the repository starts with the file's parsed contents, or with a failed read |
| Db.ContentRepository.GetAllContent | lib/db.ts:24-33 | a failed read or parse gives the empty list; otherwise the stored list |
| Db.ContentRepository.GetContentById | lib/db.ts:36-39 | the first record with the id; null exactly when no record has it |
| Db.ContentRepository.AddContent | lib/db.ts:42-60 | exactly one record is appended at the end, with the supplied fields, the fresh id, the time and 0 views; earlier records are unchanged; the appended record is returned |
| Db.ContentRepository.UpdateContent | lib/db.ts:63-74 | an absent id gives null and leaves the store alone; otherwise the first matching record is replaced by the merge, the stored list keeps its length and every other record, and the merged record is returned |
| Db.FirstWithIdUnique | lib/db.ts:67 | the first match is unique, so the index that is written is determined by the id |
| Db.UpdatePreservesOthers | lib/db.ts:70 | an update at one index keeps the length and every other record; `UpdateContent` states this of the stored list |
| Db.AddThenGet | lib/db.ts:36-60 | a record added with an id no earlier record has is found at the end by that id |
| ContentRoute.Get | app/api/content/route.ts:9-22 | a listing whose article bodies cannot be stripped (a file that parses to something other than an array of objects) gives 500 "Failed to fetch content"; otherwise 200 with a list of the same length and order, where each item has no article body and every other field unchanged |
| ContentRoute.GetOfRepository | app/api/content/route.ts:11-14 | the repository's list is always served with 200, and a failed read or parse of the file gives 200 with an empty list |
| ContentRoute.AcceptedIff | app/api/content/route.ts:36-71 | a body is accepted iff the six required fields are truthy, the price is positive, and the field the content type requires is truthy (embed URL for video, the default type; article body for articles) |
| ContentRoute.RejectionOrder | app/api/content/route.ts:36-71 | each 400 message is returned exactly when its guard is the first one that fails, in the handler's order |
| ContentRoute.AcceptedRecord | app/api/content/route.ts:74-85 | the record built on acceptance: the required fields copied, the type defaulting to video, the embed URL defaulting to "", an article body only for articles, and a category only when one is truthy |
| ContentRoute.Post | app/api/content/route.ts:28-95 | an unreadable body gives 500; a rejected body gives 400 with its message and stores nothing; an accepted body is appended to the repository and returned with status 201 |
| JsStrings.Trim | components/ArticleRenderer.tsx:113 | `trim` leaves no white space at either end |
| JsStrings.TrimBlank | components/ArticleRenderer.tsx:116 | a line trims to nothing exactly when it is all white space |
| JsStrings.TrimRemovesOnlyEnds | components/ArticleRenderer.tsx:113 | `trim` removes white space from the two ends only; the result is an infix of the line |
| JsStrings.Split | components/ArticleRenderer.tsx:107 | `split('\n')` gives at least one piece, and no piece contains a newline |
| JsStrings.JoinSplit | components/ArticleRenderer.tsx:107 | joining the pieces with newlines gives back the body |
| JsStrings.ToLower | app/explore/page.tsx:26-28 | ASCII `toLowerCase`: the result has the input's length, no upper-case letter, and at each position the input's character or the same letter in the other case |
| JsStrings.ToLowerIgnoresCase | app/explore/page.tsx:26-28 | strings that differ only in the ASCII case of their letters lower-case to the same string |
| JsStrings.ToLowerIdempotent | app/explore/page.tsx:26-28 | lower-casing twice is lower-casing once |
| InlineMarkdown.MatchImage | components/ArticleRenderer.tsx:17 | `^!\[([^\]]*)\]\(([^)]+)\)` gives an image no longer than the text (its shape is in `BracketedParts` and `ImagePrefix`, its completeness in `ImageFound`) |
| InlineMarkdown.ImageFound | components/ArticleRenderer.tsx:17 | every text that starts with `![ALT](URL)`, ALT without `]` and URL non-empty without `)`, is read as the image (ALT, URL), whatever follows |
| InlineMarkdown.MatchLink | components/ArticleRenderer.tsx:75 | `^\[([^\]]+)\]\(([^)]+)\)` gives a link no longer than the text (its shape is in `BracketedParts` and `LinkPrefix`, its completeness in `LinkFound`) |
| InlineMarkdown.LinkFound | components/ArticleRenderer.tsx:75 | every text that starts with `[TEXT](URL)`, TEXT non-empty without `]` and URL non-empty without `)`, is read as the link (TEXT, URL), whatever follows |
| InlineMarkdown.BracketedParts | components/ArticleRenderer.tsx:17-90 | the alternative text and link text contain no `]`, the link text is not empty, and the URL is a non-empty run without `)` |
| InlineMarkdown.ImagePrefix | components/ArticleRenderer.tsx:17-36 | the image's source text is a prefix of the remaining text |
| InlineMarkdown.LinkPrefix | components/ArticleRenderer.tsx:75-90 | the link's source text is a prefix of the remaining text |
| InlineMarkdown.MatchDelimited | components/ArticleRenderer.tsx:39-72 | `^D(.+?)D` for bold, italic and code: a non-empty content that fits with both delimiters (its shape is in `DelimitedPrefix` and `ShortestContent`, its completeness in `DelimitedFound`) |
| InlineMarkdown.DelimitedFound | components/ArticleRenderer.tsx:39-72 | every text `D C D …` with C non-empty, free of line terminators, and with no closing `D` starting inside C, is read as the content C |
| InlineMarkdown.CloseFromIs | components/ArticleRenderer.tsx:39-72 | the lazy search for the closing delimiter stops at the first end that the delimiter follows when no line terminator comes before it |
| InlineMarkdown.IndexOfIs | components/ArticleRenderer.tsx:17 | the `[^\]]*\]` and `[^)]+\)` scans stop at the first `]` or `)` |
| InlineMarkdown.DelimitedPrefix | components/ArticleRenderer.tsx:39-72 | the match is delimiter, content and delimiter at the front of the text, and the content has no line terminator |
| InlineMarkdown.ShortestContent | components/ArticleRenderer.tsx:39-72 | `.+?` is lazy: no shorter content is followed by the closing delimiter |
| InlineMarkdown.CloseFromIsFirst | components/ArticleRenderer.tsx:39-72 | the closing delimiter found is the first one after the opening |
| InlineMarkdown.NextSpecial | components/ArticleRenderer.tsx:93 | `` slice(1).search(/[*`!\[]/) ``: the first special character after the first one, or none when there is none |
| InlineMarkdown.TryRule | components/ArticleRenderer.tsx:17-90 | each markup rule consumes at least one character and at most the remaining text |
| InlineMarkdown.PlainRun | components/ArticleRenderer.tsx:93-100 | the plain-text run is non-empty and no longer than the remaining text |
| InlineMarkdown.PlainRunShape | components/ArticleRenderer.tsx:93-100 | the plain run is a prefix that holds a special character at most first, and it stops only at a special character |
| InlineMarkdown.StepIsFirstMatch | components/ArticleRenderer.tsx:17-100 | each round takes the token of the first matching rule, in the order image, bold, italic, code, link; plain text only when none matches |
| InlineMarkdown.Step | components/ArticleRenderer.tsx:15-100 | every round removes at least one character, so the loop terminates |
| InlineMarkdown.TokenizeStep | components/ArticleRenderer.tsx:15-100 | the tokens of a text are its first token followed by the tokens of the rest |
| InlineMarkdown.TokenizeLossless | components/ArticleRenderer.tsx:15-100 | the tokens' source texts, concatenated, give back the text: nothing is lost or reordered |
| InlineMarkdown.ChopLossless | components/ArticleRenderer.tsx:98-99 | splitting off a prefix token loses nothing |
| InlineMarkdown.TextRuns | components/ArticleRenderer.tsx:93-99 | every plain-text token is non-empty and contains a special character at most as its first character |
| InlineMarkdown.NextToken | components/ArticleRenderer.tsx:16-100 | one round of the loop yields the token that `Step` specifies |
| InlineMarkdown.FormatInline | components/ArticleRenderer.tsx:10-104 | the loop yields exactly the token sequence `Tokenize` specifies |
| ArticleRenderer.TrimAll | components/ArticleRenderer.tsx:113 | every line is read trimmed, and the line count is kept |
| ArticleRenderer.TrimAllAt | components/ArticleRenderer.tsx:113 | line `k` of the trimmed body is line `k` trimmed |
| ArticleRenderer.CountHashes | components/ArticleRenderer.tsx:129 | the leading run of `#` characters and nothing more |
| ArticleRenderer.HeadingMatch | components/ArticleRenderer.tsx:129-132 | a heading exactly when the line starts with 1 to 6 `#` followed by white space; the level is the count of `#`, and the text is the line from the first non-space character after them up to its first line terminator: non-empty, starting with no white space |
| ArticleRenderer.ImageLine | components/ArticleRenderer.tsx:174 | a standalone image line is an image whose source text is the whole line |
| ArticleRenderer.ImageLineFound | components/ArticleRenderer.tsx:174 | a line that is exactly `![ALT](URL)`, ALT without `]` and URL non-empty without `)`, is the image (ALT, URL) |
| ArticleRenderer.ImageLineIff | components/ArticleRenderer.tsx:174 | a line is an image line exactly when it is the source of some image |
| ArticleRenderer.MarkerEnd | components/ArticleRenderer.tsx:154-235 | the marker and the white space after it end within the line |
| ArticleRenderer.StripShape | components/ArticleRenderer.tsx:154-235 | on a run line the marker is removed and what is left is a suffix starting with no white space; other lines are unchanged |
| ArticleRenderer.RunEnd | components/ArticleRenderer.tsx:154-235 | the inner loop stops within the body |
| ArticleRenderer.RunEndShape | components/ArticleRenderer.tsx:154-235 | a run takes every consecutive line of its kind and stops at the first line of another kind: runs are maximal |
| ArticleRenderer.RunEndUnique | components/ArticleRenderer.tsx:154-235 | any index that ends a maximal run is the run end |
| ArticleRenderer.Items | components/ArticleRenderer.tsx:155-159 | one item per line of the run |
| ArticleRenderer.ItemsAt | components/ArticleRenderer.tsx:154-235 | item `k` is line `i + k` with its marker stripped, in order |
| ArticleRenderer.Numbering | components/ArticleRenderer.tsx:224-227 | ordered-list items are numbered 1 to k in order, whatever numbers the lines carried |
| ArticleRenderer.BlockRule | components/ArticleRenderer.tsx:122-274 | each block rule reads at least one line and stays within the body; the paragraph rule always applies |
| ArticleRenderer.NextBlock | components/ArticleRenderer.tsx:112-275 | a non-blank line starts a block that ends within the body, so the loop terminates |
| ArticleRenderer.NextBlockIsFirstRule | components/ArticleRenderer.tsx:122-274 | the block is the one of the first rule that applies, in the order rule, heading, quote, image, bullets, numbered, plain-text heading or paragraph |
| ArticleRenderer.NextBlockShape | components/ArticleRenderer.tsx:154-235 | only quotes and lists take more than one line; they hold one entry per line with the marker stripped, and ordered lists are renumbered |
| ArticleRenderer.BlocksWellFormed | components/ArticleRenderer.tsx:106-278 | every block is well formed (heading levels 1 to 6, non-empty runs, numbering 1 to k), and there are no more blocks than lines |
| ArticleRenderer.BlankBodyIsEmpty | components/ArticleRenderer.tsx:116-119 | blank lines produce no element |
| ArticleRenderer.FormatAll | components/ArticleRenderer.tsx:165-209 | `items.map(formatInline)` formats every item in order |
| ArticleRenderer.TrimmedLine | components/ArticleRenderer.tsx:113 | the line the loop reads is the trimmed line |
| ArticleRenderer.RunLine | components/ArticleRenderer.tsx:156-157 | the inner-loop test and the stripped text of a line |
| ArticleRenderer.CollectRun | components/ArticleRenderer.tsx:155-221 | the inner loop stops at the run end and collects the stripped lines in order |
| ArticleRenderer.GatherRun | components/ArticleRenderer.tsx:154-235 | a quote or list element and the line after its run |
| ArticleRenderer.NextElement | components/ArticleRenderer.tsx:121-274 | one round on a non-blank line pushes the block `NextBlock` specifies |
| ArticleRenderer.PlainElement | components/ArticleRenderer.tsx:240-274 | a short line without closing punctuation, between blank lines and not list-like, becomes h1 at index 0 and h2 elsewhere; any other line becomes a paragraph |
| ArticleRenderer.Round | components/ArticleRenderer.tsx:112-275 | one round advances the index and pushes the elements that, followed by the blocks of the rest, give the blocks from the current line |
| ArticleRenderer.Render | components/ArticleRenderer.tsx:106-278 | the rendered elements are the blocks of the body split at newlines and trimmed |
| ArticleRenderer.RenderLines | components/ArticleRenderer.tsx:112-275 | the loop over the lines yields exactly the specified blocks |
| VideoPlayer.ClassRunEndShape | components/VideoPlayer.tsx:12-22 | a captured `[\w-]+` or `\d+` run is maximal |
| VideoPlayer.MatchAtShape | components/VideoPlayer.tsx:12-22 | a match at a position is one of the literal alternatives followed by its capture |
| VideoPlayer.SearchIsLeftmost | components/VideoPlayer.tsx:12-22 | `match` finds the leftmost match: no match before it, and none at all when it fails |
| VideoPlayer.SearchCapture | components/VideoPlayer.tsx:15-23 | a found capture is non-empty and within its character class |
| VideoPlayer.EmbedUrlCases | components/VideoPlayer.tsx:9-30 | the YouTube case comes first and gives the embed form; otherwise a Vimeo id gives the player form; otherwise the URL is returned unchanged |
| VideoPlayer.EmbedUrlByIds | components/VideoPlayer.tsx:11-29 | the result is decided by the YouTube id when there is one, then by the Vimeo id, and is otherwise the URL itself |
| VideoPlayer.YouTubeIdMentionsHost | components/VideoPlayer.tsx:11-14 | a YouTube id is found only where the URL mentions a YouTube host |
| VideoPlayer.VimeoIdMentionsHost | components/VideoPlayer.tsx:21-22 | a Vimeo id is found only where the URL mentions `vimeo.com` |
| VideoPlayer.WatchLink | components/VideoPlayer.tsx:11-17 | `…youtube.com/watch?v=ID…` maps to `https://www.youtube.com/embed/ID`, where ID is the maximal `[\w-]` run, when no `y` comes before the host |
| VideoPlayer.ShortLink | components/VideoPlayer.tsx:11-17 | `…youtu.be/ID…` maps to `https://www.youtube.com/embed/ID`, where ID is the maximal `[\w-]` run, when no `y` comes before the host |
| VideoPlayer.EmbedFormFixed | components/VideoPlayer.tsx:13-16 | `…youtube.com/embed/ID…` maps to `https://www.youtube.com/embed/ID` when no `y` comes before the host or after ID, and ID is followed by neither a `[\w-]` character nor a `.` |
| VideoPlayer.EmbedFormHasNoWatchAt | components/VideoPlayer.tsx:12-13 | no watch or short link starts anywhere in such an embed URL, so the first pattern does not apply |
| VideoPlayer.DottedLitNotInId | components/VideoPlayer.tsx:12-13 | `youtube.com/…` and `youtu.be/` cannot start inside an ID that is followed by neither a `[\w-]` character nor a `.` |
| VideoPlayer.EmbedIsFixed | components/VideoPlayer.tsx:13-16 | the function is idempotent on its YouTube output |
| VideoPlayer.VimeoLink | components/VideoPlayer.tsx:21-25 | `…vimeo.com/<digits>…` maps to `https://player.vimeo.com/video/<digits>` when no `v` comes before the host and no `y` anywhere outside it |
| VideoPlayer.PlayerFormFixed | components/VideoPlayer.tsx:21-29 | a `player.vimeo.com/video/N` URL is returned unchanged |
| VideoPlayer.PlayerIsFixed | components/VideoPlayer.tsx:21-29 | the function is idempotent on its Vimeo output |
| CreateContentForm.LengthIssues | components/CreateContentForm.tsx:15-32 | a length check reports issues only for its own field |
| CreateContentForm.FieldIssues | components/CreateContentForm.tsx:14-34 | each field's checks report issues only for that field |
| CreateContentForm.SchemaAcceptsIff | components/CreateContentForm.tsx:14-34 | the schema reports no issue exactly when every bound holds; the category never matters |
| CreateContentForm.LengthMessages | components/CreateContentForm.tsx:15-32 | a length check reports at most one issue: the "at least" message iff too short, the "at most" message iff too long |
| CreateContentForm.IssueOfField | components/CreateContentForm.tsx:14-34 | an issue is reported exactly when its own field's checks report it |
| CreateContentForm.TitleMessages | components/CreateContentForm.tsx:15-18 | the title must be 5 to 100 characters, each bound with its own message |
| CreateContentForm.DescriptionMessages | components/CreateContentForm.tsx:19-22 | the description must be 20 to 1000 characters, each bound with its own message |
| CreateContentForm.CreatorNameMessages | components/CreateContentForm.tsx:29-32 | the creator name must be 2 to 50 characters, each bound with its own message |
| CreateContentForm.UrlMessages | components/CreateContentForm.tsx:23-24 | each URL field is reported exactly when the URL check fails |
| CreateContentForm.PriceMessages | components/CreateContentForm.tsx:25-28 | a missing number, a price below 0.01 and a price above 1000000 are each reported exactly when they occur |
| CreateContentForm.CategoryIsFree | components/CreateContentForm.tsx:33 | the optional category is never reported |
| CreateContentForm.ParseForm | components/CreateContentForm.tsx:14-55 | the form parses iff every bound holds; a failure carries the schema's non-empty issue list; a success carries the entered values |
| CreateContentForm.VideoIdOf | components/CreateContentForm.tsx:63-68 | on a `youtube.com` host the id is the `v` parameter or ""; on a `youtu.be` host it is the path without its first character; otherwise "" |
| CreateContentForm.ThumbnailRoundTrip | components/CreateContentForm.tsx:69-71 | the thumbnail URL and the video id determine each other for non-empty ids |
| CreateContentForm.ExtractYouTubeThumbnail | components/CreateContentForm.tsx:60-74 | "" exactly for an unparseable URL or an empty id; otherwise the `hqdefault.jpg` URL of that id |
| CreateContentForm.WatchThumbnail | components/CreateContentForm.tsx:64-70 | a `youtube.com` URL with `v=ID` gives the thumbnail of ID |
| CreateContentForm.ShortThumbnail | components/CreateContentForm.tsx:66-70 | a `youtu.be/ID` URL gives the thumbnail of ID |
| CreateContentForm.NatToString | components/CreateContentForm.tsx:101 | a status code is written as a non-empty string of decimal digits |
| CreateContentForm.NatToStringRoundTrip | components/CreateContentForm.tsx:101 | reading the digits back gives the status code |
| CreateContentForm.SubmittedFormIsAccepted | components/CreateContentForm.tsx:84-92 | a body sent from a valid form with a connected wallet passes every guard of the content route, as a video with the entered URL and price and no article body |
| CreateContentForm.FailureMessage | components/CreateContentForm.tsx:94-103 | an error body that is not JSON gives "Server error (status)"; a truthy `error` field is shown; otherwise the default message |
| CreateContentForm.AnswerShape | components/CreateContentForm.tsx:106-117 | exactly one toast, first, which is a success toast iff the content was created; `onSuccess` is called iff created and a handler is given; no further request |
| CreateContentForm.CreateContentForm.constructor | components/CreateContentForm.tsx:42-55 | the form starts empty, with no errors and not submitting |
| CreateContentForm.CreateContentForm.EditEmbedUrl | components/CreateContentForm.tsx:214-222 | the embed URL is set; the thumbnail field is overwritten only when extraction gives a non-empty string |
| CreateContentForm.CreateContentForm.Submit | components/CreateContentForm.tsx:76-92 | an invalid form shows its issues and sends nothing; without an address there is an error toast and no request, and the form is not submitting; otherwise it is submitting and exactly one POST is sent |
| CreateContentForm.CreateContentForm.Settle | components/CreateContentForm.tsx:94-117 | submitting ends on every outcome; the answer's effects are appended; the form is reset only on success |
| Explore.TruthyCategories | app/explore/page.tsx:19 | the list holds exactly the truthy categories of the content |
| Explore.DistinctElements | app/explore/page.tsx:18-20 | `Array.from(new Set(xs))` has the same values as `xs`, none of them twice |
| Explore.DistinctOrder | app/explore/page.tsx:18-20 | the values come in the order of their first occurrence |
| Explore.FirstIndex | app/explore/page.tsx:18-20 | the first occurrence of a value |
| Explore.Categories | app/explore/page.tsx:18-20 | each truthy category of the content appears exactly once |
| Explore.KeptPositions | app/explore/page.tsx:23-32 | the increasing positions of exactly the items that pass both tests |
| Explore.FilteredIsSelection | app/explore/page.tsx:23-32 | `filtered` is the order-preserving selection of the items at those positions |
| Explore.FilteredMembers | app/explore/page.tsx:23-32 | an item is shown exactly when it is in the content and matches both the search and the category |
| Explore.NoFilterKeepsAll | app/explore/page.tsx:24-31 | an empty search with no selected category shows all content, in order |
| Explore.FilteredIdempotent | app/explore/page.tsx:23-32 | filtering twice with the same search and category is filtering once |
| Explore.SearchIgnoresCase | app/explore/page.tsx:25-28 | lower-casing the search text does not change the result |
| Explore.SearchCaseInsensitive | app/explore/page.tsx:25-28 | two search texts that differ only in the ASCII case of their letters select the same items |
| Explore.CategoryChipSelects | app/explore/page.tsx:18-30 | every category chip shown selects at least one item of that category |
| Explore.Toggle | app/explore/page.tsx:113-115 | clicking the selected category clears the selection; clicking any other category selects it |
| Explore.ToggleTwice | app/explore/page.tsx:113-115 | clicking a chip twice returns to the starting selection |
| WalletStore.Apply | lib/store.ts:13-14 | `setAddress(a)` sets the address to `a`, `clearWallet` sets it to null, and neither touches the network |
| WalletStore.RunKeepsNetwork | lib/store.ts:12-14 | no sequence of actions changes the network |
| WalletStore.LastActionDecides | lib/store.ts:13-14 | after a non-empty sequence of actions the address is decided by the last action alone |
| WalletStore.ClearLaws | lib/store.ts:11-14 | `clearWallet` is idempotent, and `setAddress` followed by `clearWallet` restores the initial state |
| WalletStore.WalletStore.constructor | lib/store.ts:11-12 | the store starts with no address on testnet |
| WalletStore.WalletStore.SetAddress | lib/store.ts:13 | the new state is `setAddress` applied to the old one |
| WalletStore.WalletStore.ClearWallet | lib/store.ts:14 | the new state is `clearWallet` applied to the old one |
| Navbar.TruncateAddress | components/Navbar.tsx:15-17 | the result is the first min(6, n) characters, then `...`, then the last min(4, n) characters, and its length is the sum |
| Navbar.TruncateShortens | components/Navbar.tsx:16 | truncation shortens exactly the addresses longer than 13 characters, and gives 13 characters from length 6 on |
| Navbar.StxIndex | components/Navbar.tsx:24-26 | the position of the first STX entry |
| Navbar.FindStx | components/Navbar.tsx:24-26 | `find` gives the first STX entry's address, and none exactly when there is no STX entry |
| Navbar.Navbar.constructor | components/Navbar.tsx:11-13 | the navbar starts not connecting |
| Navbar.Navbar.BeginConnect | components/Navbar.tsx:19-20 | `connecting` is true while the connect attempt runs |
| Navbar.Navbar.FinishConnect | components/Navbar.tsx:21-36 | `connecting` is false after success and after failure; an STX address is stored with a success toast; a failure shows the error toast and keeps the address; the network is never touched |
| Navbar.Navbar.HandleDisconnect | components/Navbar.tsx:39-45 | the wallet is always cleared, whatever the library disconnect does; the success toast comes first and the library's `disconnect` after it, once its module has loaded |
| PaymentGate.ChallengeDefaults | components/PaymentGate.tsx:41-44 | without a 402, or with a 402 that has no header, the recipient is the creator and the amount is the converted price |
| PaymentGate.ChallengeFromHeader | components/PaymentGate.tsx:44-52 | a decodable header decides both values, each falling back to its default when falsy, and the body is never read |
| PaymentGate.ChallengeFromBody | components/PaymentGate.tsx:53-58 | a header that does not decode lets only the body fields that are present override the defaults |
| PaymentGate.AppendKeepsOrder | components/PaymentGate.tsx:70-107 | appending effects that open no signer keeps the attempt's order guarantees |
| PaymentGate.OutcomeUnlocks | components/PaymentGate.tsx:87-100 | content is unlocked exactly when verify is ok with a body, or verify fails and the preview is ok with a body |
| PaymentGate.OutcomeKeepsOrder | components/PaymentGate.tsx:80-100 | after the transaction the signer is not opened again, verify is not requested again, and content is unlocked at most once |
| PaymentGate.AnnouncedOutcomeKeepsOrder | components/PaymentGate.tsx:75-100 | the same holds with the broadcast toast and the verify request in front |
| PaymentGate.OutcomeAfterRejection | components/PaymentGate.tsx:90-97 | a failed verify is followed by the unlocking toast and the preview request, and by nothing else when the preview fails |
| PaymentGate.Settle | components/PaymentGate.tsx:80-100 | the steps after the verify request are exactly those `Outcome` specifies |
| PaymentGate.PaymentGate.constructor | components/PaymentGate.tsx:19-27 | the gate starts idle, not paying, with no effects |
| PaymentGate.PaymentGate.BeginPay | components/PaymentGate.tsx:29-39 | without an address: an error toast, no fetch, no signer, and `isPaying` untouched; otherwise `isPaying` and the content request |
| PaymentGate.PaymentGate.OnContentResponse | components/PaymentGate.tsx:39-112 | a 2xx response unlocks that body and ends the attempt; a transport or parse failure, or a throw from `openSTXTransfer` or from the `BigInt` conversion of its amount, shows the error toast and ends it; any other status opens the signer once, on testnet, with the amount and recipient the challenge gives |
| PaymentGate.PaymentGate.OnFinish | components/PaymentGate.tsx:75-102 | the broadcast toast, then the verify request with the payer, then the outcome; `isPaying` is false afterwards |
| PaymentGate.PaymentGate.OnCancel | components/PaymentGate.tsx:103-106 | the cancellation toast, and `isPaying` is false afterwards |

## Left out

- React rendering, styling and animation. Toasts, requests, the signer and `onUnlocked`/`onSuccess` calls are recorded as effects in a trace.
- `fetch`, `response.json()`, `atob` and `JSON.parse` are inputs: fetch results are records, and header decoding is an option-valued function parameter.
- The wallet-extension calls `connect`, `disconnect` and `openSTXTransfer` are left out. The signer's outcome arrives as a call of `OnFinish` (with the transaction id) or of `OnCancel`.
- `STXtoMicroSTX` from the x402-stacks library works on floats and is not visible. The converted price is a constructor argument of `PaymentGate.PaymentGate`.
- The USD estimate `price * 0.15` is display only.
- The browser `URL` parser and zod's URL check are not part of this model. The parsed URL (host, path, `v` parameter) and the URL check are parameters of `CreateContentForm.CreateContentForm`.
- File-system I/O in `lib/db.ts` is left out. The JSON file is an in-memory `Option<seq<Content>>`, where None is a failed read or parse.
- The random id and `Date.now()` are parameters. Id uniqueness is not guaranteed by the code, and the model does not assume it.
- The zustand `persist` middleware and its localStorage key are left out.
- `console` logging is left out.
- Lengths are counted in characters, while JavaScript counts UTF-16 code units; the two differ only for characters outside the Basic Multilingual Plane.
- Lower-casing is ASCII only; JavaScript's full Unicode `toLowerCase` is not modelled.
- Db.ContentRepository: the file is held as a list of records or as a failed read. A file that parses to another JSON value (`{}`, `null`, `42`, an array with `null` in it) is returned as is by `getAllContent` and makes the list handler fail; the model does not store it and stands for it by the `None` listing of `ContentRoute.Get`.
- PaymentGate.Payload: `payTo` and `maxAmountRequired` of a decoded header or body are typed as an optional string and an optional natural number. A JSON amount of another type is not modelled: a string `"0"` is truthy in the source and opens the signer with amount 0, while the model's `Some(0)` is falsy and falls back to the converted price. An amount that `BigInt` rejects (`1.5`, `"abc"`, a negative number) throws at the `openSTXTransfer` call; the model folds that throw into `walletAvailable == false`, which gives the same error toast.
- CreateContentForm.CreateContentForm.EditEmbedUrl: keeps `errors` unchanged. After a failed submit, react-hook-form re-validates an edited field on change, so the source updates the embed URL's error message as the user types; `isSubmitted` and that re-validation are not modelled.
- ContentModel.Patch: a key is either absent (`None`) or present with a value. A key present with the value `undefined` (such as `{category: undefined}`, which clears the category in the spread) cannot be written.
- ContentRoute.CreateBody: the body's fields are taken as JSON strings and a JSON number (`Option<real>`); prices of another JSON type, which `<=` and `Number` coerce (a string `"0"` is rejected, `"abc"` is stored as NaN, `true` as 1), are not modelled.
- The price field's NaN (an empty number input) is `None`. zod's own wording for a non-number is approximated by a constant message.
- `reset()` returns the form to its empty values, modelled as the `Blank` record.
- The mobile menu's `setMobileOpen` is left out.
- A failing library `disconnect` is left out. Its promise is not awaited, so it cannot stop the wallet from being cleared.
- Overlapping connect attempts, and other interleavings of asynchronous callbacks, are left out. Each handler runs to completion in the model.
- The server side of the 402 exchange (issuing challenges and verifying transactions on chain) is not part of this model.
