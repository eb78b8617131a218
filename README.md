# Tarot bot: card store and webhook handler in Dafny

This project models the core of a LINE tarot-card bot written in Rust. Two
pieces are modelled.

- **The card store** (`TarotStore` in `tarot-bot-rust/src/tarot_info.rs`).
  At start-up it walks a directory of JSON files. It keeps the `.json` files
  whose name starts with a `usize` before the first `_` and whose content
  decodes. It stores them in a `BTreeMap` keyed by that id, and a later file
  with the same id overwrites an earlier one. It answers three queries:
  - the list of all titles, as `"<id>: <title>"` lines in ascending id order;
  - one card by id: its text and its upright image;
  - a random card, whose image is the reversed one when a coin comes up true.
- **The webhook handler** (`TarotHandler` in `tarot-bot-rust/src/handler.rs`).
  It reads only the first event of a webhook call. It classifies the event's
  text, first match wins: a draw phrase, the all-cards phrase, a help phrase,
  a `usize` from 0 to 77, and otherwise the help text. Text that is absent
  gets a fixed notice. The handler builds the reply body, adds the reply
  token when the event has one, and answers the webhook with `"OK"`.

Modules, one per concern:

| file | module | models |
|---|---|---|
| `wrappers.dfy` | `Wrappers` | Rust's `Option` and `unwrap_or` |
| `text.dfy` | `Text` | `split('_').next()`, `Path::extension`, `join("\n")`, and `split` used to read a joined text back |
| `usize.dfy` | `Usize` | `str::parse::<usize>()` and decimal formatting of a `usize` (64-bit target) |
| `ordered_keys.dfy` | `OrderedKeys` | the ascending key order of a `BTreeMap` |
| `inserts.dfy` | `Inserts` | a run of `BTreeMap::insert` calls, some steps skipped, where the last insert under a key wins |
| `messages.dfy` | `Messages` | `get_msg_body`, `get_image_body`, and the `replyToken` insertion of `send_reply` |
| `tarot_info.dfy` | `TarotInfo` | `TarotStore::new` (the method `Load`, a loop over the directory entries) and the queries |
| `handler.dfy` | `Handler` | the phrase tables, the classification `match`, and `handle` |

How the model stands in for what it cannot run:

- **Directory walk.** The walk is the sequence of entries it yields. Each
  entry has a file name and a content: unreadable, not JSON, or a decoded card.
- **Card record.** A decoded card is a record of `Option<string>` fields. A
  field is `None` when the document is not an object, the key is missing, or
  the value is not a string. That is what `get(..).and_then(as_str)` reads.
- **Randomness.** It is injected as two values. `pick` is the position of the
  drawn id among the loaded ids in ascending order. `coin` chooses the
  reversed image.
- **Panics.** The two `unwrap()` calls of the store become `None` results:
  an id that is not loaded, and a random draw from an empty store. When that
  happens, `Handler.Handle` returns `Panicked` instead of `"OK"`.
- **Replies.** `Handle` does not POST anything. It returns the reply it would
  post, as the token and the body with that token.

Points about the code worth stating:

- The image URL is `base_url + "/" + path`, with a `/` between the two parts.
- A missing title reads `無法獲得卡片` in the listing and `未知卡片` in a
  single card's text.
- A reply is sent whenever the first event has a reply token, also when it
  has no text: that event gets the text-only notice.
- A card number from 0 to 77 whose file was not loaded makes the handler
  panic, so no `"OK"` is returned. `Handler.CompleteStoreNeverPanics` shows
  that `"OK"` always comes back once every card from 0 to 77 is loaded.
- Ids above 77 are loaded and listed, and a random draw can pick them.
  A lookup by number cannot reach them.

## Model

| member | source | states |
|---|---|---|
| `Text.FirstSegment` | tarot-bot-rust/src/tarot_info.rs:37 | the result is the longest prefix of the name without `_`, so it stops at the first `_` or takes the whole name |
| `Text.FirstSegmentOf` | tarot-bot-rust/src/tarot_info.rs:37 | a name made of an `_`-free head, then `_`, then anything, has that head as its prefix |
| `Text.Extension` | tarot-bot-rust/src/tarot_info.rs:29 | a name has an extension exactly when it has a dot after its first character and is not `..`; the extension is the dot-free text after the last dot |
| `Text.ExtensionOf` | tarot-bot-rust/src/tarot_info.rs:29 | `stem + "." + ext` has extension `ext` when the stem is non-empty and `ext` has no dot |
| `Text.Join` | tarot-bot-rust/src/tarot_info.rs:71 | joining no parts gives the empty text; the joined text starts with the first part, followed by the separator when more parts come |
| `Text.SplitJoin` | tarot-bot-rust/src/tarot_info.rs:71 | joining newline-free lines with `\n` and splitting on `\n` gives the lines back |
| `Text.JoinEndsWithLast` | tarot-bot-rust/src/tarot_info.rs:71 | the joined text ends with its last line, so no separator is added at the end |
| `Usize.Parse` | tarot-bot-rust/src/handler.rs:58 | parsing fails on the empty string, on a lone `+` and on a leading `-`, and a result always fits in a `usize` |
| `Usize.ParseRejectsNonDigit` | tarot-bot-rust/src/handler.rs:58 | any character other than a digit after the optional leading `+` makes parsing fail |
| `Usize.ParseDigits` | tarot-bot-rust/src/handler.rs:58 | a non-empty run of digits, leading zeros allowed, parses to its value when that fits in a `usize` and fails as an overflow otherwise; a leading `+` gives the same result |
| `Usize.ParseLeadingZeros` | tarot-bot-rust/src/handler.rs:58 | `"007"` parses to 7 |
| `Usize.Format` | tarot-bot-rust/src/tarot_info.rs:68 | the decimal text of an id is non-empty, all digits, and has no leading zero |
| `Usize.FormatValue` | tarot-bot-rust/src/tarot_info.rs:68 | the digits of the decimal text read back as the number |
| `Usize.ParseFormat` | tarot-bot-rust/src/handler.rs:58 | every `usize` parses back from its decimal text, with or without a leading `+` |
| `Usize.ParseOverflow` | tarot-bot-rust/src/handler.rs:58-59 | a number above the `usize` range does not parse, with or without `+` |
| `OrderedKeys.LeastExists` | tarot-bot-rust/src/tarot_info.rs:62 | every non-empty set of ids has a least element, so the ascending iteration can start |
| `OrderedKeys.Sorted` | tarot-bot-rust/src/tarot_info.rs:62 | the `BTreeMap` key order: the ids, each exactly once, in strictly ascending order |
| `OrderedKeys.ListingsAgree` | tarot-bot-rust/src/tarot_info.rs:110 | two strictly ascending sequences with the same elements are equal |
| `OrderedKeys.SortedUnique` | tarot-bot-rust/src/tarot_info.rs:110 | any strictly ascending listing of the key set is the one the map iterates in |
| `Inserts.Applied` | tarot-bot-rust/src/tarot_info.rs:39 | inserting in order into an empty map leaves at most one key per insert |
| `Inserts.SkipIgnored` | tarot-bot-rust/src/tarot_info.rs:27-43 | a skipped step of the insert loop changes nothing, wherever it stands |
| `Inserts.AppliedKeys` | tarot-bot-rust/src/tarot_info.rs:39 | after a run of inserts, a key is present exactly when some insert used it |
| `Inserts.AppliedValue` | tarot-bot-rust/src/tarot_info.rs:39 | after a run of inserts, each key holds the value of the last insert under it |
| `Messages.MsgBody` | tarot-bot-rust/src/handler.rs:98-107 | the body has exactly one message, a text with the given text, and no image and no token yet |
| `Messages.ImageBody` | tarot-bot-rust/src/handler.rs:109-123 | the body has a text message with the given text, then one image whose full-size and preview URLs both equal the given URL |
| `Messages.WithReplyToken` | tarot-bot-rust/src/handler.rs:79-82 | the body gets the token under `replyToken`, and its messages are unchanged |
| `TarotInfo.StoredId` | tarot-bot-rust/src/tarot_info.rs:29-41 | an entry is stored only if it is a `.json` file that decoded, and under an id that fits in a `usize` |
| `TarotInfo.Loaded` | tarot-bot-rust/src/tarot_info.rs:27-41 | the map built from the walk holds at most one card per entry |
| `TarotInfo.Load` | tarot-bot-rust/src/tarot_info.rs:24-49 | the load loop builds exactly the map of inserting the stored entries in walk order; the base URL is the setting, or empty when unset; every id fits in a `usize` |
| `TarotInfo.LoadedFits` | tarot-bot-rust/src/tarot_info.rs:37 | every loaded id is at most the `usize` maximum |
| `TarotInfo.SkippedEntryIgnored` | tarot-bot-rust/src/tarot_info.rs:29-41 | an entry that is not `.json`, is unreadable, has no `usize` before its first `_`, or does not decode changes nothing wherever it appears, and the scan goes on |
| `TarotInfo.LoadedKeys` | tarot-bot-rust/src/tarot_info.rs:33-41 | an id is loaded exactly when some entry is stored under it |
| `TarotInfo.LoadedValue` | tarot-bot-rust/src/tarot_info.rs:39 | under each id lies the card of the last entry stored under it, so a later duplicate wins |
| `TarotInfo.DuplicateOverwrites` | tarot-bot-rust/src/tarot_info.rs:39 | loading a file whose id is already loaded replaces that card, keeps the same ids, and leaves every other card as it was |
| `TarotInfo.CardFileStored` | tarot-bot-rust/src/tarot_info.rs:29-39 | a decoded file named `<id>_<anything>.json` is stored under its id |
| `TarotInfo.TitleLine` | tarot-bot-rust/src/tarot_info.rs:64-68 | a listing line is exactly the decimal id, `": "` and the title or `無法獲得卡片`: the text before its first `:` is the id, it ends with `": "` and the title, and nothing else is in between |
| `TarotInfo.TitleLines` | tarot-bot-rust/src/tarot_info.rs:59-70 | one line per stored id, the i-th line being `"<id>: <title or placeholder>"` for the i-th id in ascending order |
| `TarotInfo.AllTitlesBody` | tarot-bot-rust/src/tarot_info.rs:59-73 | the listing is sent as exactly one text message, with no image and no token yet |
| `TarotInfo.AllTitlesListing` | tarot-bot-rust/src/tarot_info.rs:59-72 | an empty store lists as the empty text; for a non-empty store, splitting the listing text on newlines gives the title lines again, one per id in ascending order, and the text does not end with a newline |
| `TarotInfo.ListingIds` | tarot-bot-rust/src/tarot_info.rs:63-68 | the text before the `:` of the i-th listing line parses back to the i-th loaded id |
| `TarotInfo.TitleLineId` | tarot-bot-rust/src/tarot_info.rs:68 | the text before the `:` of a line `"<id>: <title>"` parses back to the id |
| `TarotInfo.TitleLineFields` | tarot-bot-rust/src/tarot_info.rs:64-68 | a listing line is non-empty and has no line break when its title has none |
| `TarotInfo.CardText` | tarot-bot-rust/src/tarot_info.rs:77-89 | the card text starts with the title or `未知卡片` and a blank line, and ends with a blank line and the source URL or empty text |
| `TarotInfo.ImagePath` | tarot-bot-rust/src/tarot_info.rs:91-100 | the path is the reversed one when asked for, else the upright one, and empty text when that field is missing |
| `TarotInfo.SingleInfo` | tarot-bot-rust/src/tarot_info.rs:75-105 | there is a body exactly when the id is loaded (otherwise `unwrap` panics); it holds the card's text and the image at `base_url + "/" + path`, reversed only for a random draw whose coin is true |
| `TarotInfo.CardTextFields` | tarot-bot-rust/src/tarot_info.rs:77-89 | the card text shows the title or `未知卡片`, the description or empty text, and the source URL or empty text, verbatim and in that order, separated by blank lines |
| `TarotInfo.CardTextFirstLine` | tarot-bot-rust/src/tarot_info.rs:77-89 | a title without line breaks is the first line of the card text |
| `TarotInfo.RandomIndex` | tarot-bot-rust/src/tarot_info.rs:107-113 | a draw fails exactly when nothing is loaded (the `unwrap` at line 113); otherwise the drawn id is a loaded one |
| `TarotInfo.RandomInfo` | tarot-bot-rust/src/tarot_info.rs:107-115 | a random card exists exactly when the store is non-empty; it is the single-card answer for some loaded id, with the coin in effect |
| `TarotInfo.GetTarotInfo` | tarot-bot-rust/src/tarot_info.rs:51-57 | a query fails exactly for a random draw from an empty store or a lookup of an id that is not loaded |
| `TarotInfo.SingleIsUpright` | tarot-bot-rust/src/tarot_info.rs:55 | a lookup by id ignores the coin and shows the upright image |
| `TarotInfo.RandomImageFollowsCoin` | tarot-bot-rust/src/tarot_info.rs:91-95 | a random draw shows the reversed image when the coin is true and the upright one when it is false |
| `TarotInfo.RandomReachesEveryCard` | tarot-bot-rust/src/tarot_info.rs:108-113 | every loaded id is drawn by some pick |
| `TarotInfo.RandomPicksDistinct` | tarot-bot-rust/src/tarot_info.rs:108-113 | different picks draw different ids, so picks and loaded ids correspond one to one |
| `Handler.Classify` | tarot-bot-rust/src/handler.rs:49-68 | absent text, and only absent text, is its own command; a card number comes only from text that parses to it, and it is at most 77 |
| `Handler.BodyFor` | tarot-bot-rust/src/handler.rs:49-69 | a reply body is built for every command except a draw from an empty store and a card number that is not loaded |
| `Handler.Handle` | tarot-bot-rust/src/handler.rs:41-77 | no events or an empty array gives `"OK"` and no reply; when the handler responds, it responds `"OK"`; any reply goes to the first event's token and its body carries that token |
| `Handler.PhrasesAreNotNumbers` | tarot-bot-rust/src/handler.rs:19-30 | no draw, all-cards or help phrase parses as a `usize` |
| `Handler.SignedNumberNotPhrase` | tarot-bot-rust/src/handler.rs:19-30 | no phrase starts with a digit or a sign |
| `Handler.ClassifyDraw` | tarot-bot-rust/src/handler.rs:50-52 | a text is a draw exactly when it is a draw phrase, since that arm is tried first |
| `Handler.ClassifyAllCards` | tarot-bot-rust/src/handler.rs:53-55 | a text lists all cards exactly when it is `所有卡片` |
| `Handler.ClassifyHelp` | tarot-bot-rust/src/handler.rs:56-67 | a text gets the help text exactly when it is no draw or all-cards phrase and is a help phrase, does not parse, or parses above 77 |
| `Handler.ClassifyCard` | tarot-bot-rust/src/handler.rs:57-63 | a text shows card n exactly when it parses as the `usize` n and n is at most 77 |
| `Handler.ClassifyNonNumeric` | tarot-bot-rust/src/handler.rs:56-67 | a text that is no draw or all-cards phrase and holds a non-digit after the optional `+`, such as `abc`, gets the help text |
| `Handler.ClassifyNumber` | tarot-bot-rust/src/handler.rs:57-67 | a number's decimal text, with or without `+`, shows that card up to 77 and the help text above 77 or on overflow; with a `-` it gets the help text |
| `Handler.ClassifyNoText` | tarot-bot-rust/src/handler.rs:68 | absent text is its own command with the fixed notice body, which differs from the help body whenever the help text differs from the notice |
| `Handler.OnlyFirstEvent` | tarot-bot-rust/src/handler.rs:45 | the events after the first change nothing |
| `Handler.ReplyWhenTokenPresent` | tarot-bot-rust/src/handler.rs:71-73 | once the body is built, a reply is sent exactly when the first event has a reply token, and it carries the body's messages unchanged |
| `Handler.PanicsOnlyOnMissingCard` | tarot-bot-rust/src/handler.rs:49-69 | the handler panics exactly for a draw phrase with an empty store, or a card number from 0 to 77 that is not loaded |
| `Handler.CompleteStoreNeverPanics` | tarot-bot-rust/src/handler.rs:45-76 | with every card from 0 to 77 loaded, every webhook call responds `"OK"` |
| `Handler.DrawReplies` | tarot-bot-rust/src/handler.rs:45-73 | `抽卡` with a token sends one reply to that token, holding a text message followed by one image |
| `Handler.AllCardsReplies` | tarot-bot-rust/src/handler.rs:45-73 | `所有卡片` with a token sends one reply to that token, holding only the listing text |

## Left out

- web-server/src/main.rs is not part of this model. It holds only the tracing setup, dotenv, the TCP bind and the router.
- The help text of tarot-bot-rust/src/help.rs is an opaque string parameter (`helpText`) of the handler value.
- The filesystem is not modelled: `WalkDir`, `read_to_string` and `DATA_PATH`. The walk order is the order of the input sequence. Walk errors dropped by `filter_map(|e| e.ok())` and file names that are not UTF-8 are not represented, because entries are given as string names.
- JSON decoding and encoding (`serde_json`) are not modelled. A decoded file is a record of optional strings. A body is a message list plus an optional token. Bodies are always JSON objects, so the non-object case of `as_object_mut` never arises.
- The environment is not read. `GITHUB_URL` is a parameter of `Load`. `LINE_CHANNEL_ACCESS_TOKEN`, its start-up `expect` and the `Authorization` header are out of scope, because they only feed the outbound request.
- The `rand` crate is replaced by the injected `pick` and `coin`. Uniformity and fairness cannot be stated on values. `TarotInfo.RandomReachesEveryCard` and `TarotInfo.RandomPicksDistinct` show that a uniform pick gives a uniform draw over the loaded ids.
- The outbound `reqwest` POST, async/await, and the `debug!`/`error!` logging are network I/O and logging. The POST's result never reaches the webhook response.
- What the web framework does after a panic is not modelled. `Panicked` only marks that no `"OK"` is returned.
- `TarotInfo.AllTitlesListing` is stated only for stores whose titles have no line break. A title containing a newline spreads over several lines of the listing.
- `Usize.Parse` assumes a 64-bit target, with a `usize` maximum of 2^64 - 1.
