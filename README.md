# askziva: the scrapers, the scan route and the result page, modelled in Dafny

askziva judges an online product listing. It has four parts:
- a backend route (`/scan`) that fetches the listing and sums it up as a verdict record;
- a competitor price hunter that looks for the same product on Flipkart and on Croma;
- a price-history hunter that reads the lowest and the average price of the product from a price-history site;
- a browser script that posts a link to the backend and renders the reply: a verdict header, a history block with a record-low rule, and a market section that highlights cheaper offers.

This project models the decision and string logic of those four parts and proves what it promises. The browser, HTTP and HTML plumbing around that logic becomes inputs to the model.

Modules, one per file:

- `Wrappers` (`wrappers.dfy`): the `Option` type that stands for `None`/`null`.
- `PyStr` (`pystr.dfy`): the Python built-ins the scrapers use.
  - `strip()` over Python's whitespace set.
  - `split(c)[0]` and `replace(c, "")`.
  - `startswith`, `endswith` and `in`.
  - ASCII `lower()`.
  - `int()`, with sign, surrounding whitespace and PEP 515 underscores.
  - `int(float())` on decimal text.
- `Scraping` (`scraping.dfy`): the query cleaning and the link completion both hunters share.
- `PriceHunter` (`price_hunter.dfy`): `search_flipkart`, `search_croma` and `hunt`.
  - The Flipkart search page is a function from the URL to the candidate list its page script extracts. A page that fails gives no candidates, which leads to the same `None`.
  - The Croma search page is a function from the URL to the first product card, or `None`.
  - `fuzz.partial_ratio` is a parameter with scores 0..100.
  - `SearchFlipkart` is the early-exit loop of the source, proved against the first-match specification `FlipkartPick`.
  - `Hunt` builds its result list by appending, as the source does.
- `HistoryHunter` (`history_hunter.dfy`): `get_history`.
  - The search page is a function from the URL to the `href` of its first product link.
  - The product page is a function from the URL to the text of its body.
  - The regular expression `<label>.*?₹([\d,]+)` with `re.IGNORECASE` is given its own definition (`MatchAt`). Its leftmost-first, lazy-then-greedy search is proved against that definition.
- `App` (`app.dfy`): `ziva_truth_engine` and `scan_endpoint`. `requests.get` and BeautifulSoup become a `Fetch` value: either the exception raised, or the status together with the optional title and price texts.
- `Client` (`client.dfy`): `scanLink`.
  - The DOM it changes is the class `ScanPage`: the result box, the button, the alerts raised and the requests sent.
  - The reply of the backend is a function from the link to the decoded JSON, `None` when the request fails.
  - The record-low rule (`HistoryBlock`) and the market rows (`MarketRows`) are methods that reassign step by step, as the script does. Each is proved equal to a specification function whose contract states the display rules.
- `EndToEnd` (`end_to_end.dfy`): the backend and the browser together.
  - None of the three verdicts `/scan` gives says `SAFE`, `SUSPICIOUS` or `HIGH RISK`.
  - So the page shows each of them in green, with the warning sign and the `scam` class, and with no history block or market section.

Points of the code's behaviour that are easy to miss, all of which the model follows:
- The search term is cut at the first `(` and at the first `|`, and then stripped. Nothing else is removed, and its length is not limited.
- Flipkart returns the first candidate in page order whose price parses and whose title scores above 60.
- The similarity floors are the constants 60 (Flipkart) and 50 (Croma).
- `get_history` returns a record even when the lowest price is 0.
- A Flipkart price is accepted whatever integer it parses to, 0 and negative ones included.

## Model

| member | source | states |
|---|---|---|
| `Scraping.Cut` | price_hunter.py:82 | the cut title is the longest prefix holding neither `(` nor a vertical bar; when it is shorter than the title, the next character is one of them |
| `Scraping.CleanQuery` | price_hunter.py:82 | the query both hunters search with (also history_hunter.py:13): the title cut at `(` and at a vertical bar, then stripped; its properties are stated by `CleanQueryShape`, `CleanQueryIdempotent`, `CleanQueryDropsSuffix` and `CleanQueryExample` |
| `Scraping.CleanQueryShape` | price_hunter.py:82 | the cleaned query holds neither `(` nor a vertical bar, has no whitespace at either end, and is the cut title with only surrounding whitespace removed |
| `Scraping.CleanQueryIdempotent` | history_hunter.py:13 | cleaning a cleaned query gives it back unchanged |
| `Scraping.CleanQueryDropsSuffix` | price_hunter.py:82 | a clean name, a space and then `(` or a vertical bar with anything after cleans to the bare name |
| `Scraping.CleanQueryExample` | price_hunter.py:82 | `OnePlus 13R`, a tagline after a vertical bar and a variant in parentheses cleans to `OnePlus 13R` |
| `Scraping.CompleteLink` | price_hunter.py:73 | a completed link starts with `http` and ends with the href; an href starting with `http` is kept, any other gets the site address in front |
| `Scraping.CompleteLinkIdempotent` | history_hunter.py:40 | completing a completed link changes nothing |
| `PyStr.ParseIntDecimal` | price_hunter.py:36 | `int()` reads the decimal rendering of every natural number back as that number |
| `PyStr.ParseFloatTruncExtendsParseInt` | price_hunter.py:72 | on every text `int()` accepts, `int(float())` gives the same number |
| `PyStr.ParseFloatTruncFraction` | price_hunter.py:72 | `int(float("n.m"))` is `n`: the fraction is dropped |
| `PyStr.ParseInt` | price_hunter.py:36 | Python's `int()` on a text: `None` where it raises; `ParseIntDecimal` and `ParseIntDigits` state that it reads digits as their value, and `ParseFloatTruncExtendsParseInt` that `int(float())` agrees with it |
| `PyStr.ParseFloatTrunc` | price_hunter.py:72 | Python's `int(float())` on decimal text: `None` where it raises; its properties are stated by `ParseFloatTruncExtendsParseInt` and `ParseFloatTruncFraction` |
| `PriceHunter.FlipkartPrice` | price_hunter.py:36 | the Flipkart price: every `₹` and `,` removed, the text before the first space, stripped, read by `int()`; its properties are stated by `FlipkartPriceOfDigits`, `FlipkartPriceFirstToken`, `FlipkartPriceGrouped` and `FlipkartPriceExample` |
| `PriceHunter.FlipkartPriceOfDigits` | price_hunter.py:36 | a price text made of `₹`, `,` and at least one digit parses to the value of its digits, every `₹` and `,` removed |
| `PriceHunter.FlipkartPriceFirstToken` | price_hunter.py:36 | only the text before the first space is parsed; whatever follows the space is ignored |
| `PriceHunter.FlipkartPriceGrouped` | price_hunter.py:36 | `₹` followed by digits, a thousands comma and digits parses to the digits joined |
| `PriceHunter.FlipkartPriceExample` | price_hunter.py:36 | `"₹1,299"` parses to 1299 |
| `PriceHunter.FlipkartLink` | price_hunter.py:38 | a missing href stays missing; a present, non-empty href not starting with `http` gets `https://www.flipkart.com` in front; an empty or absolute href is kept |
| `PriceHunter.FlipkartOffer` | price_hunter.py:38-39 | the offer is labelled Flipkart and carries the candidate's title, its parsed price and its link completed by `FlipkartLink` |
| `PriceHunter.FirstAccepted` | price_hunter.py:34-41 | the position found is accepted (price parses, score above 60), and every earlier candidate fails one of the two tests |
| `PriceHunter.FlipkartPick` | price_hunter.py:34-41 | there is no offer exactly when no candidate passes both tests; otherwise the offer is built from the first candidate that does |
| `PriceHunter.SearchFlipkart` | price_hunter.py:13-42 | the loop that skips candidates whose price raises and returns at the first title scoring above 60 computes exactly `FlipkartPick` |
| `PriceHunter.CromaPrice` | price_hunter.py:71-72 | the Croma price: every `₹` and `,` removed, stripped, read by `int(float())`; its properties are stated by `CromaPriceOfPlain` and `CromaPriceWithPaise` |
| `PriceHunter.CromaPriceOfPlain` | price_hunter.py:71-72 | a leading `₹` is removed before a plain decimal number is converted |
| `PriceHunter.CromaPriceWithPaise` | price_hunter.py:71-72 | `₹` followed by rupees, `.` and paise gives the whole rupees |
| `PriceHunter.SearchCroma` | price_hunter.py:70-77 | there is an offer exactly when the card exists, has a non-empty title and price, the price converts, it has a link, and the title scores above 50; the offer is labelled Croma and carries that title and price, and the card's link: kept when it starts with `http`, otherwise with `https://www.croma.com` in front |
| `PriceHunter.Hunt` | price_hunter.py:81-105 | searches both stores with the cleaned title; the list holds one entry per store that found an offer, Flipkart's first and Croma's last, at most two, with no empty entries |
| `HistoryHunter.FirstAmountSpec` | history_hunter.py:46-47 | the lazy scan finds the nearest `₹` followed by a digit or comma on the same line, and finds none only when there is none before the line ends |
| `HistoryHunter.FindMatch` | history_hunter.py:46-47 | `re.search` of the label's pattern: the label position and the `₹` position of the match; `FindMatchSpec` states it against the independent definition `MatchAt` |
| `HistoryHunter.FindMatchSpec` | history_hunter.py:46-47 | the reported match is a match of the pattern at the leftmost label position, with the nearest `₹` for that label; no match is reported only when the pattern matches nowhere |
| `HistoryHunter.AmountRunSpec` | history_hunter.py:46-47 | the captured group is the longest run of digits and commas after the `₹` |
| `HistoryHunter.Amount` | history_hunter.py:46-50 | one field of the history read from the page text; `AmountSpec`, `AmountAfterLabel`, `AmountExample` and `AmountWithoutRupee` state its value |
| `HistoryHunter.AmountSpec` | history_hunter.py:46-50 | a field is 0 when its pattern matches nowhere; otherwise it is the value of the captured group with commas removed, or no result when that group holds no digit; a value read is never negative |
| `HistoryHunter.AmountAfterLabel` | history_hunter.py:46-50 | a label, text without a line break or `₹`, then a `₹` amount gives the amount's digits with commas removed |
| `HistoryHunter.AmountExample` | history_hunter.py:46-49 | `₹12,499` after the label reads as 12499 |
| `HistoryHunter.AmountWithoutRupee` | history_hunter.py:49-50 | a page with no `₹` gives 0 for every label |
| `HistoryHunter.GetHistory` | history_hunter.py:11-58 | there is no result exactly when the search page raised or has no product link, the product page raised, or `int()` raised for one of the two fields; a result comes from the product page at the completed link (kept when absolute, site address in front otherwise), and its two fields are the amounts read for the two labels |
| `HistoryHunter.GetHistoryFields` | history_hunter.py:49-53 | both fields of a record are at least 0, and a field whose label does not match is 0 |
| `HistoryHunter.GetHistoryBothZero` | history_hunter.py:53 | a product page without any `₹` amount yields a record with both fields 0 |
| `App.Take` | app.py:36 | `s[:n]` is the first `n` characters, or all of a shorter string |
| `App.ProductField` | app.py:25-36 | the product field is at most 103 characters and ends in `...`; what precedes `...` is the first 100 characters of the stripped title, or of `Title Not Found` when there is no title |
| `App.ShortTitleShownWhole` | app.py:25-36 | a stripped title of at most 100 characters is shown whole before `...` |
| `App.PriceField` | app.py:28-37 | the price field starts with `₹`; with no price it is `₹Hidden`; otherwise it holds no `.`, and after the `₹` is the price text with dots removed and surrounding whitespace stripped |
| `App.TruthEngine` | app.py:10-40 | an exception gives exactly verdict `❌ ERROR` and its message as reason; a status other than 200 gives exactly `⚠️ BLOCKED` and `Bot detection triggered`; a 200 gives exactly `✅ ONLINE` with the product and price fields |
| `App.ScanEndpoint` | app.py:48-55 | a missing body, or one without `url`, is answered 400 with only `error: No URL provided`; any other is answered with the engine's record for that URL |
| `App.RejectedWithoutEngine` | app.py:50-51 | a rejected request gets the same answer whatever the listing's fetch would give |
| `App.VerdictsDistinct` | app.py:19-40 | the three verdict texts differ |
| `Client.VerdictColor` | script.js:35-37 | red exactly when the verdict says `HIGH RISK`; orange exactly when it says `SUSPICIOUS` and not `HIGH RISK`; green otherwise |
| `Client.VerdictIcon` | script.js:38 | the check mark exactly when the verdict says `SAFE`, the warning sign otherwise |
| `Client.BoxClass` | script.js:94 | class `safe` exactly when the verdict says `SAFE`, `scam` otherwise |
| `Client.IconAgreesWithClass` | script.js:38-94 | the check mark always comes with `safe` and the warning sign with `scam` |
| `Client.CurrentPrice` | script.js:41 | the reply's current price, 0 when it has none |
| `Client.HistoryShown` | script.js:45-55 | the block is shown exactly when there is a history with a lowest price other than 0. A current price in (0, lowest) is a record low: it is shown under `🔥 NEW RECORD LOW:` in gold. Otherwise the historical lowest is shown under `Lowest Ever:` in green. The shown price is never above the historical lowest, and with a current price it is the smaller of the two. The average is kept |
| `Client.HistoryBlock` | script.js:44-69 | overwriting the label, colour and price step by step computes exactly `HistoryShown` |
| `Client.RowOf` | script.js:77-89 | a row copies the competitor's site, price and link, and is highlighted exactly when the current price is above 0 and the competitor is cheaper |
| `Client.MarketSection` | script.js:71-92 | the section exists exactly for a non-empty competitor list; it has one row per competitor in list order, each being `RowOf` its competitor: the competitor's site, price and link, highlighted exactly when cheaper than a current price above 0 and plain otherwise |
| `Client.MarketRows` | script.js:71-92 | appending one row per competitor computes exactly `MarketSection` |
| `Client.Rendered` | script.js:94-102 | what the box shows for a reply: its verdict and reason with the colour and icon of `VerdictColor` and `VerdictIcon`, and the history block and market section of `HistoryShown` and `MarketSection` for the reply's current price |
| `Client.ScanPage.StartScan` | script.js:6-16 | an empty link only raises the alert and changes nothing else; any other shows the connecting message, disables the button and labels it `Scanning...` |
| `Client.ScanPage.FinishScan` | script.js:28-110 | the button is enabled and labelled `Check Trust` again. With no reply the box shows the system error with class `scam`. Otherwise the box gets the class, colour, icon, history block and market section of the reply |
| `Client.ScanPage.ScanLink` | script.js:1-111 | an empty link sends nothing; any other is sent exactly once, and the page ends in the state `FinishScan` gives for the reply to that link |
| `EndToEnd.BackendRepliesShowAsWarnings` | script.js:35-94 | for every reply of the `/scan` route the page shows green, the warning sign and class `scam`, with no history block and no market section |

## Left out

- Playwright: launching the browser, contexts, pages, navigation, waits, stealth and the in-page scripts. These are foreign I/O; their outcomes are the page functions described above.
- `asyncio.gather`: the two store searches run one after the other in argument order, which is the order `gather` returns them in.
- `fuzz.partial_ratio` internals: a library call, taken as a parameter with scores 0..100.
- `int(float())` on exponent forms (`1e3`), `inf`/`nan`, and the rounding of very long decimals. This is floating point. The model converts decimal text without an exponent and truncates it.
- Unicode details of Python and JavaScript:
  - `lower()` and `re.IGNORECASE` fold non-ASCII letters; the model folds ASCII letters only.
  - `\d` and `int()` accept non-ASCII decimal digits; the model accepts ASCII digits only.
- `requests.get`, BeautifulSoup, Flask routing, CORS and `jsonify`: HTTP and HTML plumbing, replaced by the `Fetch` value and the `HttpReply` record.
- A request body that is JSON but not an object (a list, a string), or a `url` that is not a string: the body is modelled as an optional object of strings.
- The home route (`app.py:43-45`) and `app.run`: fixed text and server start-up.
- The HTML templates, `toLocaleString` number formatting, `alert` and `console.error` of the browser script: UI. The model records what each part of the box shows, and the alerts raised.
- Reply shapes the typed `Reply` cannot hold, and what the script does with them:
  - a JSON `null` body: reading `data.verdict` raises inside the `try`, and the system error is shown;
  - a history without `average`: `average.toLocaleString()` raises, and the system error is shown, only when `lowest` is truthy and the block is built (script.js:45, 66); otherwise no block is shown, as in the model;
  - a competitor without `price`: `comp.price.toLocaleString()` raises when the market section is built (script.js:86);
  - a `current_price` that is not a number: nothing raises; `data.current_price || 0` keeps it (script.js:41), and JavaScript's comparisons convert it, so a non-numeric text fails every `currentPrice > 0` test (script.js:51, 78) and the page is what the model shows for a current price of 0.
- PyStr.ParseInt: CPython 3.11 and later raise `ValueError` on a digit run longer than 4300 digits (the integer string conversion length limit); the model reads any length. This reaches `FlipkartPrice` (price_hunter.py:36) and `Amount` (history_hunter.py:49-50).
- Client.ScanPage.constructor: the page's initial state comes from markup that is not part of this model. The constructor assumes a hidden box and a ready button.
- Client.ScanPage.ScanLink: the connecting message during the request is overwritten by the end state, so the method's contract states only the end state. `StartScan`'s contract states the loading state.
- `print` logging and the browser clean-up (`browser.close()`).
- The multi-source aggregator, the AI judge, timeouts and the current-price derivation: none of this code is part of this model.
