# gitlabot message relay, in Dafny

gitlabot takes GitLab webhook calls and forwards them to a WeChat Work group
robot. Its handler, `TransmitRobot`, does the following:

1. It reads the robot key from the `X-Gitlab-Token` header and answers 403 when the header is empty.
2. It picks a payload shape by the `X-Gitlab-Event` header and decodes the body as that shape.
3. It renders one of six Markdown templates:
   - Push
   - Tag Push
   - Issue
   - Note
   - Merge Request
   - Pipeline
4. It replaces every Gitmoji shortcode (`:bug:`, `:art:`, …) with its emoji, using the `GitEmojiMap` table.
5. It wraps the result in a JSON envelope and posts it to the robot.

The project models that path from the request to the message that would be
posted. It then proves what the handler guarantees about the message.

Modules, one per file:

- `Strings` (strings.dfy): Go's `strings.ReplaceAll`, `%d`, and the line split used to state message layouts.
- `Gitmoji` (gitmoji.dfy): shortcode tables and the substitution pass over an arbitrary iteration order, with its laws.
- `GitEmojiMap` (gitemojimap.dfy): the 67-entry table. It is proved well formed, and it is shown that the map's iteration order changes the result.
- `EmojiPass` (emojipass.dfy): `trans2Emoji` as the loop it is.
- `Payloads` (payloads.dfy): the decoded webhook records.
- `Renderers` (renderers.dfy):
  - the six templates;
  - Push and Pipeline as methods that build the message with `+=`, as the handler does;
  - their line-by-line layout.
- `Envelope` (envelope.dfy): `buildMsg` and its inverse.
- `Robot` (robot.dfy): the handler.
  - `Respond` says what it does with a request.
  - `TransmitRobot` does it step by step and is proved equal to `Respond`.
  - Lemmas cover the early answers and what gets sent.

Go iterates a map in an unspecified order. The emoji pass therefore takes the
iteration order as a parameter `order`. `GitEmojiMap.IsMapOrder` admits any
arrangement of the table. The keys look as if they cannot overlap, but they
can share a colon: `":bug:art:"` becomes `🐛art:` when `bug` is visited first
and `:bug🎨` when `art` is visited first (`GitEmojiMap.OrderMatters`). The
result of the pass therefore depends on the order. What holds for every order
is this:

- no key of the table survives;
- a second pass changes nothing;
- text without any key is left as it is;
- the heading line stays the heading line.

## Model

| member | source | states |
|---|---|---|
| Strings.ReplaceAll | gitlab.go:86 | Go's left-to-right, non-overlapping `strings.ReplaceAll`; a string in which the pattern does not occur is returned unchanged |
| Strings.ReplaceAllLength | gitlab.go:86 | replacing a pattern with something no longer never makes the string longer |
| Strings.ReplaceAllAround | gitlab.go:86 | a character outside the pattern splits the replacement: the two sides are replaced independently |
| Strings.ReplaceAllDeletes | gitlab.go:251 | replacing "\n" by "" deletes exactly the '\n' characters and keeps the rest in order |
| Strings.ReplaceAllLeading | gitlab.go:262 | a pattern at the front of a string is replaced there, and the rest is replaced on its own |
| Strings.ContainsMultiset | gitlab.go:86 | a string contains at least the characters of anything occurring in it (the basis of the colon counting) |
| Strings.NatToString | gitlab.go:315 | `%d` of a positive number: non-empty, digits only, no leading zero |
| Strings.ParseNatToString | gitlab.go:315 | the decimal text of a number reads back as that number |
| Strings.LinesJoined | gitlab.go:250-252 | text built line by line with "\n" splits back into exactly those lines, in order |
| Gitmoji.Row | gitlab.go:15-83 | every table row is a well-formed entry: a lower-case name, and an emoji that is non-empty, has no shortcode character and has fewer characters (runes) than its key |
| Gitmoji.ReplaceRemovesKey | gitlab.go:86 | after one ReplaceAll of a key by an emoji, the key no longer occurs |
| Gitmoji.ReplaceKeepsAbsence | gitlab.go:86 | a ReplaceAll by an emoji never creates a shortcode that was absent |
| Gitmoji.SubstituteRemovesKeys | gitlab.go:85-89 | after the pass, in any order, no key of the table occurs in the result |
| Gitmoji.SubstituteUnchanged | gitlab.go:85-89 | the pass returns its input unchanged if and only if no key occurs in it |
| Gitmoji.SubstituteIdempotent | gitlab.go:85-89 | a second pass in the same order changes nothing |
| GitEmojiMap.ReorderedPassIdempotent | gitlab.go:85-89 | a second call, ranging over the map in any other order, changes nothing |
| Gitmoji.SubstituteLength | gitlab.go:85-89 | the pass never increases the number of characters (runes) of the text |
| Gitmoji.SubstituteAround | gitlab.go:85-89 | a character outside the shortcode alphabet splits the pass: the text on either side is substituted independently |
| Gitmoji.SubstituteHeading | gitlab.go:248 | the pass keeps "# name\n…" a heading line, with only the name and the rest substituted |
| Gitmoji.SubstituteEmpty | gitlab.go:85-89 | the pass maps "" to "" |
| Gitmoji.SubstituteFewColons | gitlab.go:85-89 | text with fewer than two colons is left as it is |
| Gitmoji.LeadingKeyFirst | gitlab.go:85-89 | on ":a:b:", visiting `a` first yields emoji(a) + "b:" |
| Gitmoji.TrailingKeyFirst | gitlab.go:85-89 | on ":a:b:", visiting `b` first yields ":a" + emoji(b), when a's last letter is not in b |
| Gitmoji.BugThenArt | gitlab.go:18-19 | ":bug:art:" becomes 🐛 + "art:" when bug comes first |
| Gitmoji.ArtThenBug | gitlab.go:18-19 | ":bug:art:" becomes ":bug" + 🎨 when art comes first |
| GitEmojiMap.GitEmojiTableWellFormed | gitlab.go:15-83 | every entry of GitEmojiMap is well formed |
| GitEmojiMap.MapOrderWellFormed | gitlab.go:85 | every entry in any iteration order of the map is well formed |
| GitEmojiMap.BugArtOrders | gitlab.go:85 | visiting `bug` then `art` first, or `art` then `bug` first, are both iteration orders of the map |
| GitEmojiMap.BugAndArt | gitlab.go:18-19 | the table holds the `bug` and `art` entries |
| GitEmojiMap.OrderMatters | gitlab.go:15-89 | two iteration orders of the same map give different results on ":bug:art:" |
| EmojiPass.Trans2Emoji | gitlab.go:85-90 | the loop computes the pass in the given map order; no table key survives; the result equals the input if and only if the input holds no key |
| Renderers.CommitMessage | gitlab.go:251 | the message of a commit line has no '\n' and only characters of the original message |
| Renderers.RenderPush | gitlab.go:239-255 | the Push branch yields the Push message; it short-circuits with "no commit" exactly when there are no commits and `after` is not the zero SHA |
| Renderers.AppendCommitLines | gitlab.go:250-252 | the loop appends one line per commit, in payload order |
| Renderers.HeadingLine | gitlab.go:248 | "# " + name is the first line of the message when the name has no '\n' |
| Renderers.PushLines | gitlab.go:248-255 | the Push message splits into the heading, the branch line, one line per commit in order, and then the removal notice or "" |
| Renderers.PushRemoval | gitlab.go:253-255 | the message ends with user + " `remove` it" if and only if `after` is the zero SHA |
| Renderers.TagLinkTarget | gitlab.go:262 | for a ref "refs" + rest with no further "refs", the tag link is homepage + rest |
| Renderers.TagLinkExample | gitlab.go:262 | refs/tags/v1 links to the homepage followed by /tags/v1 |
| Renderers.TagLinkLaterRefs | gitlab.go:262 | every "refs" of the ref is removed, not only the leading one: a tag name ending in "refs" loses it in the link |
| Renderers.TagLinkInnerRefs | gitlab.go:262 | refs/tags/prefs links to the homepage followed by /tags/p |
| Renderers.NoteLines | gitlab.go:275-276 | a note message has three lines: the heading, the comment line, and the Detail link |
| Renderers.MergeRequestLines | gitlab.go:282-283 | a merge-request message has three lines: the heading, the action with both branches, and the Detail link |
| Renderers.StatusIcon | gitlab.go:295-305 | a status has an icon if and only if it is failed, running, success or pending; no icon holds a colon |
| Renderers.PipelineLine | gitlab.go:294 | the kind-and-ref line is a single line if and only if the ref is |
| Renderers.StatusLine | gitlab.go:309 | the status line is a single line |
| Renderers.StartLine | gitlab.go:310 | the start line is a single line if and only if the start time is |
| Renderers.RenderPipeline | gitlab.go:284-316 | the Pipeline branch yields the Pipeline message; it short-circuits with "unknown status: " + status exactly for an unknown status |
| Renderers.PipelineLines | gitlab.go:289-316 | the Pipeline message lines are: heading, kind and ref, status, start, the Finish line only when a finish time is given, and last the duration |
| Renderers.PipelineKind | gitlab.go:290-293 | the kind word is "tag" if and only if the pipeline is for a tag |
| Renderers.DurationDigits | gitlab.go:314-316 | a positive duration is written as "`Duration`: " + decimal digits + "s", and those digits read back as the duration |
| Envelope.BuildMsg | gitlab.go:221-226 | the envelope is the template chosen by the flag, then the content verbatim, then the closing `"}}` |
| Envelope.ParseEnvelope | gitlab.go:221-226 | whatever it reads back rebuilds the envelope it was read from |
| Envelope.ParseBuildMsg | gitlab.go:221-226 | every envelope reads back as its template choice and its exact content, with no escaping |
| Envelope.BuildMsgInjective | gitlab.go:221-226 | different contents give different envelopes |
| Robot.ParseEvent | gitlab.go:239-284 | a recognised X-Gitlab-Event header is the header of the event it selects |
| Robot.ParseEventHeader | gitlab.go:239-284 | each of the six events is selected by its own header |
| Robot.TransmitRobot | gitlab.go:228-323 | the handler's steps give exactly the outcome `Respond` describes |
| Robot.RenderRequest | gitlab.go:238-317 | the if-chain gives the early answer or the content that `EventBranch` describes |
| Robot.RenderedHeading | gitlab.go:238-317 | every rendered message starts with "# " + the repository name (the project name for Pipeline) + "\n" |
| Robot.SkipReasons | gitlab.go:244-308 | neither short-circuit reason is "no content" |
| Robot.DispatchOutcomes | gitlab.go:229-321 | 403 with "X-Gitlab-Token is empty" exactly when the token is empty; with a token, "no content" exactly when the event header is not recognised |
| Robot.MalformedBody | gitlab.go:212-219 | a body that does not decode as the named payload is answered 400/400 with the decoder's error after "Parse gitlab requset body error: " |
| Robot.PushWithoutCommit | gitlab.go:244-247 | a push is answered "no commit" if and only if it has no commits and keeps its branch |
| Robot.PipelineUnknownStatus | gitlab.go:305-308 | a pipeline is answered "unknown status: " + status if and only if the status is unknown |
| Robot.PassedMessage | gitlab.go:322 | after the emoji pass no key is left, the first line is "# " + the substituted name, and a second pass changes nothing |
| Robot.SentMessage | gitlab.go:234-323 | what is sent goes to the robot URL with the token as key; it is a markdown envelope whose content holds no table key, starts with the heading line, and is unchanged by another pass |

## Left out

- JSON decoding (`bindJson`, gitlab.go:212-219) is not modelled. A request carries its body already decoded as each payload shape, or the decoder's error message. The odd struct tags at gitlab.go:108 and gitlab.go:183 matter only to the decoder.
- The HTTPS client (gitlab.go:92-97), the POST, the 500 answer and the relay of the robot's reply (gitlab.go:324-333) are network I/O. The model ends with the `Send` outcome: the URL and the bytes that would be posted. The `defer resp.Body.Close()` before the error check at gitlab.go:326 lies on that path.
- gin's rendering and status writing appear only as the `Outcome` datatype. cmd.go, which reads the environment and starts the server, is not part of this model.
- Go's random map iteration order is taken as the parameter `order`. Any arrangement of the table is admitted (`GitEmojiMap.IsMapOrder`).
- Strings are modelled as sequences of Unicode code points, and every length in a contract (`Gitmoji.Row`, `Gitmoji.SubstituteLength`, `Strings.ReplaceAllLength`, `Envelope.BuildMsg`) counts code points (runes), not the UTF-8 bytes Go's `len` counts. In bytes, three values are longer than their keys (`:mag:`, `:zap:` and `:lock:` gain a variation selector), so in Go the pass can lengthen a text; concatenation, replacement and the empty test, which are all the handler uses, behave the same on valid UTF-8.
- The emoji values of `GitEmojiMap` and the four status icons are written as the Gitmoji code points that the table's byte text encodes. No property relies on which emoji they are, only on each being non-empty, free of `:`, letters, digits and `_`, and having fewer characters than its key.
- GitEmojiMap.IsMapOrder: an order has the table's length and exactly its entries; distinct keys are not required of it. The source's map literal makes the keys distinct, and this is not restated as a proved property.
- The envelope applies no JSON escaping, exactly as the source. A content holding `"` or `\` yields an envelope that is not valid JSON; `Envelope.ParseBuildMsg` still reads it back, because it reads by position.
- Renderers.PushLines: states the layout only for names, refs, authors, URLs and timestamps without '\n'. A field with '\n' adds lines.
- Renderers.NoteLines: same restriction, for the note, the update time and the URL.
- Renderers.MergeRequestLines: same restriction, for the action, the branches and the URL.
- Renderers.PipelineLines: same restriction, for the project name, the ref and both times.
- Issue and Tag Push messages get only the heading property (`Robot.RenderedHeading`). The Tag Push link gets `Renderers.TagLinkTarget`, and `Renderers.TagLinkInnerRefs` shows that a "refs" inside the tag name is removed as well. Their single templated line has no further structure to state.
- Unused record fields (ids, emails, SSH URLs, `object_kind`) are kept in the datatypes but play no part.
- Int64 duration: Go's `int64` is a bounded `newtype`. Only positive durations are printed, so no negative formatting is modelled.
