# StockNews: digest, subject and alert decision

StockNews is a one-shot script. It fetches the daily price change of the TSLA
ticker. When the change is large enough, it fetches recent Tesla news and emails
a short digest of it. Almost all of it is network glue. This project models the
logic between the calls, in three modules:

- `PyText` (`PyText.dfy`): the Python text behaviour the digest relies on.
  It covers `str.isspace`, `str.strip()`, `str.lstrip()`, `str.rstrip()`,
  `'\n'.join(...)` and `str(i)` on a non-negative integer.
- `News` (`News.dfy`): `get_news_articles` after the articles are decoded. It
  takes the first `min(3, n)` articles and appends four lines for each: the
  header `"\nArticle k:"`, `"Title: ..."`, `"Decription: ..."` (the program's
  own spelling) and the url. It joins the lines with newlines and strips the
  result. The loop is the method `SummarizeTopArticles`, proved against the
  function `Blocks`. The layout properties are lemmas about `Digest`.
- `Alert` (`Alert.dfy`): the threshold test of the driver, the subject line of
  `send_email_with_top3_news_articles`, and the text handed to the mail relay.

The price change is an input of type `real`. The percentage text (Python's
`.0%` rendering of `abs(change)`) is an input string.

The driver compares the signed change with the threshold, not its magnitude,
and the model follows the code. A drop of any size therefore hands nothing to
the mail relay, and the "down" subject can never go out. The comment on
main.py:8 ("the price changes by alert threshold"), the name
`abs_stock_price_change_percent` on main.py:27 and the "down" subject itself
all point to a test on the magnitude; that reading is `Alert.DriverByMagnitude`,
listed under Findings.

## Model

| member | source | states |
|---|---|---|
| `PyText.IsSpace` | main.py:44 | the characters `str.strip()` removes: those for which `str.isspace()` holds |
| `PyText.SpaceClass` | main.py:44 | no digit, ASCII letter or colon is whitespace; among ASCII characters whitespace is exactly the space, tab to carriage return and the four separator controls |
| `PyText.SpaceRunEnd` | main.py:44 | the first position from a given one that does not hold whitespace: everything before it from that position is whitespace |
| `PyText.SpaceRunStart` | main.py:44 | the start of the whitespace run that ends at a given position: everything from it up to that position is whitespace, and the character before it is not |
| `PyText.StripLeading` | main.py:44 | the result is a suffix of the input, everything dropped is whitespace, and the result does not start with whitespace |
| `PyText.StripTrailing` | main.py:44 | the result is a prefix of the input, everything dropped is whitespace, and the result does not end with whitespace |
| `PyText.Strip` | main.py:44 | `str.strip()`: the result neither starts nor ends with whitespace, and it is empty exactly when the input is all whitespace |
| `PyText.StripPadded` | main.py:44 | stripping any whitespace padding from text without whitespace at its ends gives that text back, so `Strip` is fully determined |
| `PyText.StripOneLeading` | main.py:44 | one whitespace character followed by a non-whitespace one is all that is removed at the front |
| `PyText.KeepsPrefix` | main.py:44 | stripping the back never cuts into a prefix that ends in a non-whitespace character |
| `PyText.StripTrailingKeepsAll` | main.py:44 | text ending in a non-whitespace character loses nothing at the back |
| `PyText.Join` | main.py:44 | `'\n'.join(...)`: the joined text is as long as all parts together plus one separator fewer than there are parts; no parts give the empty text |
| `PyText.JoinAppend` | main.py:44 | joining two non-empty lists in sequence puts exactly one separator between them |
| `PyText.NatToString` | main.py:40 | `str(i + 1)` is a non-empty string of decimal digits with no leading zero |
| `PyText.NatToStringRoundTrip` | main.py:40 | reading the digits back gives the number, so distinct articles get distinct numbers |
| `News.Top` | main.py:39 | `range(min(3, len(...)))`: the articles used are a prefix of the list, all of it when there are at most three, exactly three otherwise |
| `News.Header` | main.py:40 | the header line starts with a newline and `Article `, and ends with a colon |
| `News.HeaderNumber` | main.py:40 | the text between `Article ` and the colon is all digits and reads back as the article's 1-based position |
| `News.Block` | main.py:40-43 | four lines: the header, `Title: ` then the title, `Decription: ` then the description, and the url; each field reads back from behind its label |
| `News.Blocks` | main.py:39-43 | four lines per article |
| `News.SummarizeTopArticles` | main.py:38-43 | the loop builds exactly the lines of `Blocks` for the first `min(3, n)` articles |
| `News.GetNewsArticles` | main.py:38-44 | the returned text is `Digest` of the articles |
| `News.Digest` | main.py:38-44 | the digest has no whitespace at either end |
| `News.BlocksAt` | main.py:39-43 | lines `4k` to `4k+3` are the block of the `k`-th article, numbered `k+1` |
| `News.SummaryLayout` | main.py:39-43 | there are `4 * min(3, n)` lines, and block `k` is `"\nArticle k+1:"`, `"Title: "` + title, `"Decription: "` + description, url |
| `News.LaterArticlesIgnored` | main.py:39 | articles after the third never change the digest |
| `News.NoArticlesEmptyDigest` | main.py:38-44 | no articles give the empty digest |
| `News.BlockJoin` | main.py:40-44 | one block joins to header, title line, description line and url, one per line |
| `News.JoinedFirst` | main.py:40-44 | for one article the joined text is that article's block |
| `News.JoinedNext` | main.py:40-44 | each further block follows the previous url after a newline, and the block starts with its own newline, so one blank line separates blocks |
| `News.JoinedStartsWithFirst` | main.py:40-44 | the joined text starts with the first article's block |
| `News.JoinedEndsWithLast` | main.py:40-44 | the joined text ends with the last article's url |
| `News.DigestStart` | main.py:40-44 | with at least one article, stripping removes exactly the first header's leading newline at the front |
| `News.DigestBegins` | main.py:40-44 | with at least one article, the digest begins `Article 1:`, then the title line, then `Decription:`, whatever the article texts are |
| `News.DigestExact` | main.py:40-44 | when the last url ends in a non-whitespace character, the digest is the joined text minus its first newline |
| `News.ThreeBlockDigest` | main.py:38-44 | with three or more articles whose third url ends in a non-whitespace character, the digest is the first block without its newline, then the second and third blocks, each after a newline |
| `News.FiveArticlesExample` | main.py:38-44 | five articles give the three blocks of the first three, separated by blank lines, trimmed |
| `Alert.ShouldAlert` | main.py:64 | the test holds exactly for a rise whose size is above 0.03 |
| `Alert.Subject` | main.py:52-53 | a positive change gives `TSLA is up: <pct>`; zero or a negative change gives `TSLA is down: <pct> ` with its trailing space; the subject has the "up" form exactly when the change is positive |
| `Alert.SubjectSingleLine` | main.py:52-53 | the subject holds no newline when the percentage text holds none |
| `Alert.Notification` | main.py:52-54 | the message body is the digest, and its subject announces a rise exactly when the change is positive |
| `Alert.MailText` | main.py:58 | the text handed to the relay: a `subject:` header line, then a blank line, then the body |
| `Alert.ParseMail` | main.py:58 | reading a mail text as header up to the first blank line and body after it; whatever it reads renders back to the same text, and the subject it reads holds no blank line |
| `Alert.MailTextRoundTrip` | main.py:58 | a message whose subject holds no newline is read back exactly, subject and body, from its mail text |
| `Alert.HandedOverMailReadable` | main.py:52-58 | the mail text of what the driver hands over reads back as the "up" subject and the digest, when the percentage text holds no newline |
| `Alert.Driver` | main.py:63-65 | a message is handed to the mail relay exactly when the change is strictly above 0.03; it always has the "up" subject and the digest as its body |
| `Alert.SentSubjectsAnnounceRise` | main.py:63-65 | every subject handed over has the "up" form, and the "down" form of the subject never is |
| `Alert.ThresholdIsStrict` | main.py:64 | a change of exactly 0.03, or any drop, hands nothing over, while 0.10 does |
| `Alert.NoNewsStillSent` | main.py:54-58 | with no articles the message is still handed to the relay, with an empty body |
| `Alert.DropBeyondThresholdIgnored` | main.py:64 | a 5% drop exceeds the threshold in magnitude but hands nothing over |
| `Alert.DriverByMagnitude` | main.py:63-65 | the corrected driver hands over a message exactly when the change is above 0.03 or below -0.03, with the message built from the change |
| `Alert.MagnitudeDriverProperties` | main.py:63-65 | the corrected driver agrees with the written one on rises, treats a move and its mirror alike, and reports a 5% drop with the "down" subject |

## Left out

- The quote request, `raise_for_status` and the JSON lookups (main.py:21-26): network I/O and a foreign library. The change is an input.
- The ratio `(current - yesterday) / yesterday` (main.py:27): float parsing and division, including the unguarded zero divisor.
- The `.0%` percentage rendering (main.py:52-53): float rounding and formatting. The text is an input string.
- The news request and JSON decoding (main.py:34-37): network I/O and the clock. The model starts from the decoded list of articles, whose fields are all strings.
- News.Digest: a JSON `null` field is not modelled. A `null` title or description is rendered as `None` by the f-strings of main.py:41-42. A `null` url is appended as `None` itself (main.py:43), and `'\n'.join` then raises `TypeError` at main.py:44, so nothing is returned.
- Alert.Driver: it states what is handed to the mail relay, not what is delivered. `sendmail` encodes a `str` message as ASCII, so any non-ASCII character in the subject or the digest (a curly quote in a news title, say) raises `UnicodeEncodeError` at main.py:58 and nothing is sent; the comment on main.py:49 records this error. The model does not capture that failure.
- Environment-variable reads (main.py:11-15): process environment, no logic.
- The `print` of the digest (main.py:55) and the SMTP session (main.py:56-59, except the message text of line 58): I/O.
- Characters are Unicode scalar values. `PyText.IsSpace` lists the characters for which Python's `str.isspace()` holds. No encoding of the mail text is modelled.
- The receiving side is not part of the program: `Alert.ParseMail` stands for how a mail reader splits the text, only to state what `Alert.MailText` hands over.

## Findings

| source | as written | input that shows it | evidently intended | confidence | as-written member | corrected member |
|---|---|---|---|---|---|---|
| main.py:64 | the signed change must exceed 0.03, so drops never alert and the "down" subject of main.py:53 is dead | a change of -0.05 (a 5% drop): nothing is sent | alert when the change moves by more than 0.03 either way (the threshold comment on main.py:8, the variable name on main.py:27 and the "down" subject all point there) | medium; not executed | `Alert.DropBeyondThresholdIgnored` | `Alert.DriverByMagnitude` |
