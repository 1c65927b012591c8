# CrushBot core, modelled in Dafny

CrushBot is a Telegram bot that watches one group chat. It echoes every
message back as a reply. In the configured group it only answers a message
when some word of its lower-cased text starts with one of the configured
keywords, which are not lower-cased. It then sends the configured sticker
before the echo. Its settings come from
`CRUSH_`-prefixed environment variables. A key transformer and a value
transformer turn each variable into a dotted configuration key and a text or
list value.

The model covers the logic the bot has of its own:

- `GoStrings` (`go_strings.dfy`): the parts of Go's `strings` package the bot
  relies on. These are `Split` and `Join` on a one-character separator,
  `HasPrefix`, `TrimPrefix`, ASCII `ToLower` and one-character `ReplaceAll`.
  The module proves that `Split` and `Join` are inverse to each other.
- `Keywords` (`keywords.dfy`): the predicate `forgotten`. It is a method with
  the source's nested loops and early return. It is proved equal to an
  existential specification: some word of the message begins with some keyword.
- `Configure` (`configure.dfy`): the key transformer and the value half of
  the environment `TransformFunc`.
- `Bot` (`bot.dfy`): the body of `main`'s update loop. `Decide` is the pure
  decision for one update. `Serve` is the loop over a finite stream of
  updates, and it returns the sends in order.
- `Wrappers` (`wrappers.dfy`): `Option`, for nil messages and unset keys.

Go strings are byte strings; here a string is a sequence of characters. Every
separator used is an ASCII character, and ASCII bytes never occur inside a
multi-byte UTF-8 sequence. So splitting, prefix tests and replacement give the
same answers as on valid UTF-8 bytes.

## Model

| member | source | states |
|---|---|---|
| `GoStrings.Split` | main.go:91 | Splitting on `' '` always gives at least one piece. No piece holds a space. There is exactly one piece iff the text has no space, and that piece is the text itself. Every character of a piece comes from the text. |
| `GoStrings.JoinSplit` | main.go:117-118 | Joining the split pieces with `' '` gives back the original text. |
| `GoStrings.SplitJoin` | main.go:117-118 | Splitting the join of a non-empty list of space-free pieces gives back the list. |
| `GoStrings.HasPrefix` | main.go:93 | `strings.HasPrefix` holds iff the prefix is an initial segment of the string, matching Dafny's own sequence-prefix relation. |
| `GoStrings.ToLower` | main.go:45 | Keeps the length. The result has no upper-case ASCII letter. Every other character is unchanged, and an upper-case letter becomes its lower-case partner. Non-ASCII case mapping is left out. |
| `GoStrings.ReplaceAll` | main.go:104 | Keeps the length. Every occurrence of the replaced character becomes the replacement and all others are unchanged, so none of it remains when the two differ. |
| `GoStrings.TrimPrefix` | main.go:104 | If the prefix is present, the result is what follows it. Otherwise the string is unchanged. |
| `Keywords.Keywords` | main.go:86-89 | A non-empty list view of `alt.keywords` is used as it is. Otherwise the keywords are the space-split text view: at least one keyword, none with a space, joining back to the text. |
| `Keywords.Forgotten` | main.go:85-100 | The nested scan returns true iff some space-separated word of the message begins with some keyword. |
| `Keywords.MentionsJoined` | main.go:91-99 | For a message built from space-free words, the predicate holds iff one of those words begins with one of the keywords. |
| `Keywords.UnsetKeywordsMatchEverything` | main.go:86-94 | With both keyword views empty, the keywords are `[""]`, and every message matches. |
| `Keywords.ExampleMatch` | main.go:91-97 | Keywords `forgo`, `skip` match "i totally forgot" through the word `forgot`. |
| `Keywords.ExampleNoMatch` | main.go:91-99 | Keyword `forgo` does not match "remembered everything". |
| `Configure.KeyTransform` | main.go:103-105 | The result drops one leading `CRUSH_`, and only if present. Each remaining character is lower-cased, with `_` turned into `.`. The result has no `_` and no upper-case ASCII letter. |
| `Configure.KeyTransformIdempotent` | main.go:103-105 | Transforming an already transformed key changes nothing. |
| `Configure.KeyCharacters` | main.go:104 | Character by character, the trim, lower-case and replace steps turn each character after the optional `CRUSH_` prefix into its lower-cased form, or `.` for `_`. |
| `Configure.PrefixedKeyChars` | main.go:104 | A key that starts with `CRUSH_` loses exactly those six characters, and each remaining character is transformed in place. |
| `Configure.PrefixedKey` | main.go:103-105 | The transformed key of a `CRUSH_`-prefixed variable is the expected string whenever each of its characters is the transform of the matching character after the prefix. |
| `Configure.KeywordsKeyExample` | main.go:103-105 | `CRUSH_ALT_KEYWORDS` becomes `alt.keywords`. |
| `Configure.ChatIdKeyExample` | main.go:103-105 | `CRUSH_CHAT_ID` becomes `chat.id`. |
| `Configure.DoublePrefixExample` | main.go:103-105 | `CRUSH_CRUSH_TOKEN` becomes `crush.token`: the prefix is trimmed only once. |
| `Configure.TransformValue` | main.go:117-121 | A value with a space becomes a list of at least two space-free pieces that join back to the value. A value without a space stays the same text. |
| `Configure.EnvTransform` | main.go:109-122 | The key is transformed by the key transformer. The stored value flattens back to the original text, and it is a list iff the text has a space. |
| `Configure.ValueWithSpaceExample` | main.go:117-118 | `"foo bar"` is stored as the list `["foo", "bar"]`. |
| `Configure.ValueWithoutSpaceExample` | main.go:121 | `"foo"` is stored as the text `"foo"`. |
| `Configure.TransformValueRoundTrip` | main.go:117-121 | Flattening any value the transformer can produce and transforming it again gives the same value. |
| `Configure.ListView` | main.go:86 | Assumed behaviour of `config.Strings`: a non-empty result only comes from a stored list, and a stored list is returned as it is. Text and unset keys give an empty list. |
| `Configure.TextView` | main.go:88 | Assumed behaviour of `config.String`: `""` for an unset key and the stored text for text. A list is rendered as its space-joined items inside `[` and `]`. |
| `Configure.StoredKeywords` | main.go:86-89 | Whether `CRUSH_ALT_KEYWORDS` was stored as text or as a list, `forgotten` scans its text split on spaces. An unset key gives the single keyword `""`. |
| `Bot.InTargetChat` | main.go:44 | The chat matches iff the configured title is a prefix of its title and its ID equals the configured ID. With an empty configured title, only the ID decides. |
| `Bot.Decide` | main.go:39-58 | No message: no sends. Otherwise the echo is sent iff the chat is not the configured group or the lower-cased text mentions a keyword. The sticker is sent iff the chat is the configured group and a keyword is mentioned. Nothing else is sent. When both are sent, the sticker comes first. |
| `Bot.Serve` | main.go:39-58 | The loop sends exactly the concatenation of each update's decision, in stream order. |
| `Bot.RepliesSnoc` | main.go:39-58 | Receiving one more update appends exactly that update's decision to the sends. |
| `Bot.RepliesAppend` | main.go:39-58 | Updates are handled independently: the sends for two streams in a row are the sends for each, concatenated. |
| `Bot.EveryReplyAnswersAnUpdate` | main.go:49-57 | Every send goes to the chat of some received message and replies to that message. A sticker goes only to the configured group and is the configured file. A text send repeats the received text, not its lower-cased form. |
| `Bot.UpperCaseKeywordNeverMatches` | main.go:45 | The words are taken from the lower-cased text, so a keyword holding an upper-case ASCII letter is never a prefix of any of them. |
| `Bot.UpperCaseKeywordsSilenceGroup` | main.go:44-47 | If every configured keyword holds an upper-case ASCII letter, any message in the configured group gets no reply at all. |

## Left out

- Configuration loading (main.go:17, 125-131): the `.env` file provider and the environment provider belong to the configuration library. Their merge order is not visible, and `config.Int64` parsing of `chat.id` is not modelled either. Settings are passed in as values.
- `Configure.ListView` and `Configure.TextView` model the library's `Strings` and `String` accessors on stated assumptions. `Strings` gives a stored list, or empty for text and unset keys. `String` gives stored text, `""` when unset, and `%v` formatting for a list. The library itself is not part of this model.
- The Telegram client (main.go:23, 51, 57, 61-83): `NewBotAPI`, `Send`, `Request`, `GetWebhookInfo` and `ListenForWebhook` are network I/O. A send is modelled as an `Action` in the returned list, and send errors are ignored as in the source.
- The update channel is unbounded and blocking; `Bot.Serve` handles a finite prefix of it.
- The keep-alive `http.ListenAndServe` goroutine (main.go:37), and the process exits through `log.Fatal`, carry no logic and are left out.
- `GoStrings.ToLower`: lower-cases ASCII letters only. Go's `strings.ToLower` also maps non-ASCII letters by Unicode case rules, which are not modelled.
