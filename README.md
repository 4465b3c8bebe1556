# Twitter-to-Personality-Insights script, modelled in Dafny

The script `main.py` loads credentials from `settings.json` and fetches a user's tweets with
tweepy's `user_timeline`. It turns each tweet into a Personality Insights "content item" and
submits the batch to IBM Watson. This project models the three parts of `Interviewer` that
hold logic:

- **Settings validation** (`Settings.dfy`). `loadSettings` checks the parsed settings object
  for eight required keys in a fixed order. It returns the object, or `None` at the first
  missing key. The file lookup and the JSON parse become an input value (`SettingsFile`), and
  the three reasons for `None` become the three cases of `SettingsError`.
- **Timeline pagination** (`Timeline.dfy`). `pullTweets` makes exactly sixteen
  `user_timeline` calls, each for 200 posts with retweets excluded. The first call has no
  `max_id`. After a non-empty page, the cursor becomes the id of the page's last post minus
  one. After an empty page on a later call, the `IndexError` is swallowed and the cursor stays
  as it was. On the first call that error is not caught, so an empty first page aborts the
  pull (`Failure(EmptyFirstPage)`). Every page is appended, in order, to one list. The Twitter
  service is a parameter, `TimelineSource`: a function from the call's index and its
  `Request` to the page returned. `PullTweets` also returns the requests it issued, so that
  the cursor rule can be stated.
- **Content items** (`ContentItems.dfy`, `Decimal.dfy`). `convert_status_to_pi_content_item`
  builds a record with:
  - the constant `sourceid` `"python-twitter"` and `contenttype` `"text/plain"`;
  - `forward` always false;
  - `reply` true exactly when `in_reply_to_status_id` is `None`;
  - the language and text copied from the post;
  - Python's `str` of the author id, the post id and the integer clock reading.

  `Decimal` models `str` on integers and its inverse. `watsonSubmission` maps the conversion
  over the statuses to build `{'contentItems': [...]}`; `clock(i)` is the clock reading taken
  while the `i`-th status is converted.

Two facts about `main.py` that the model keeps:
- The loop never stops early on a short or empty page: all sixteen calls are always made
  (main.py:50).
- An empty first page is fatal: the `IndexError` at main.py:57 is outside any `try`.

## Model

| member | source | states |
|---|---|---|
| `Settings.CheckRequiredKeys` | main.py:33-38 | succeeds exactly when all eight required keys are present, and then returns the object unchanged; otherwise reports a missing key, and every required key listed before it is present (the first missing key in `requiredKeys` order) |
| `Settings.LoadSettings` | main.py:27-44 | no file gives `FileNotFound`; an unparsable file gives `Unreadable`; success exactly when the parsed object holds every required key, returning that object; for a parsed object that lacks a key, the error is `MissingKey` naming the first absent key in `requiredKeys` order |
| `Timeline.PullTweets` | main.py:46-72 | the requests follow the protocol (handle, count 200, no retweets; first without `max_id`; later ones with the cursor `NextMaxId` gives: last id minus one after a non-empty page, the unchanged cursor after an empty one); fails exactly when the first page is empty, after one call; otherwise exactly 16 calls and the result is all pages joined in call order |
| `Timeline.ProtocolDeterminesRequests` | main.py:50-68 | two request lists of equal length that both follow the protocol for the same handle and service are equal, so the cursor sequence is fully determined by the pages |
| `Timeline.FlattenLength` | main.py:69-70 | the accumulated list is as long as all pages together: nothing dropped or deduplicated |
| `Timeline.FlattenIndex` | main.py:69-70 | post `j` of page `i` is at position (total length of pages before `i`) + `j` of the result: order within and across pages is kept |
| `Timeline.FlattenBound` | main.py:50-54 | pages of at most `limit` posts each join to at most `limit` times the page count |
| `Timeline.PullBound` | main.py:50-70 | when the service returns no more than `count` posts per call, a full pull holds at most 16 * 200 = 3200 posts |
| `Timeline.CursorDecreases` | main.py:57-68 | when the service honours `max_id`, a non-empty later page moves the cursor strictly below the previous one, and an empty page leaves it unchanged |
| `Decimal.NatToStringCanonical` | main.py:76-77 | the decimal spelling of a natural number is a canonical digit string (no leading zero) whose value is that number, and it is "0" only for zero |
| `Decimal.IntToStringRoundTrip` | main.py:76-77 | parsing `str(n)` (modelled by `IntToString`) gives back `n`, for negative numbers too |
| `Decimal.ParseIntToString` | main.py:76-77 | a string that parses to `n` is exactly `str(n)`: the spelling of an id is unique |
| `ContentItems.ConvertStatus` | main.py:74-85 | constant `sourceid` and `contenttype`, `forward` false, language and content copied, `reply` iff the post is not a reply, `userid`/`id`/`created` decode to the author id, the post id and the clock reading |
| `ContentItems.ConvertStatusIgnoresClock` | main.py:82 | two conversions of one post differ only in `created`, and are equal exactly when taken at the same second |
| `ContentItems.ConvertStatusKeepsIds` | main.py:77 | equal `id` strings in two items mean equal post ids |
| `ContentItems.BuildPayload` | main.py:109-111 | one content item per status, in the same order, item `i` being the conversion of status `i` and carrying its id and text |
| `ContentItems.PayloadFollowsPages` | main.py:109-111 | for the joined pages, the payload has one item per fetched post, and the item for post `j` of page `i` sits after all items of earlier pages and carries that post's id and text |

## Left out

- tweepy authentication and the HTTP behind `user_timeline` (main.py:23-25, 52-62). These are
  network calls through a library that is not part of this model. They are replaced by the
  `TimelineSource` parameter. The model treats the service's answer as a function of the call
  index and the request only. That function is total, so a failing `user_timeline` call is not
  modelled: network and rate-limit errors at main.py:52 and main.py:59 are outside the `try`
  and would end the script.
- The Watson `PersonalityInsightsV3` client, its `profile` call and their options
  (main.py:113-121). These are a foreign API.
- Finding and reading `settings.json` and `json.loads` (main.py:28-31, 39-44). This is I/O;
  its outcome is the `SettingsFile` input. An error raised by `open` itself is outside the
  `try`; it is not modelled.
- `Interviewer.__init__` copying the eight settings into fields and calling `exit(0)` on
  `None` (main.py:10-25). This is process control and field copying, with no logic beyond
  what `LoadSettings` guarantees.
- `time.time()` and the `int()` truncation of its float (main.py:82). The wall clock is the
  `clock` parameter, already in whole seconds.
- `printFormatted` (main.py:87-107). This is console presentation of the response.
- The `print` calls (main.py:36, 40, 43, 71). They are output only. The error datatypes
  record which message would be printed.
- The payload is modelled with Python 2 semantics, where `map` returns a list. Under Python 3
  it would be a lazy iterator, which the model does not represent.
- Status fields are typed as the model needs them: `lang` is a string, and ids are unbounded
  integers like Python's `int`. A `None` language is not modelled.
