# zamunda-api in Dafny

A model of the two small pieces of logic in zamunda-api, a Python client and
HTTP front end for the Zamunda torrent index:

* **The search client** (`Zamunda.search`, `Zamunda.get_download_link`). It
  puts the query into the site's search URL (every space becomes `+`). It
  returns no records on a non-200 status or when the page has no `zbtable`
  table. Otherwise it skips the header row and turns each anchor in the title
  cell's `<div>` into one record. A record holds the row's name, seeders,
  bg-audio flag and (in one revision) size, plus a link. The link is the
  detail-page URL, or, when magnet links are asked for, the first
  `magnet:?` href on that detail page.
* **The response cache in front of the `/search` route** (`main.py`). It is
  a dictionary from `"{q}-{provide_magnet}"` to `{response, timestamp}`. A
  call is a hit when it is not forced and the entry's timestamp is strictly
  newer than `now - 60 min`; a hit returns the stored response. An unforced
  miss first deletes a stale entry; a forced call deletes nothing. Every
  call that is not a hit runs the client, stores its answer stamped with the
  time read at the start (overwriting any entry under that key), and returns
  it. A periodic sweep deletes every entry strictly older than
  `now - 60 min`.

The repository holds two revisions of each file, and one model covers both:

* `zamunda.py` (revision `Root`) keeps only anchors whose href starts with
  `/magnetlink`, and its records have no size.
* `zamunda_api/zamunda.py` (revision `Package`) has that filter commented
  out, so every anchor yields a record; its records carry `tds[-4]` as
  size.
* `Zamunda.Revision` tells the two apart.
* `main.py` and `zamunda_api/main.py` have the same cache logic line for
  line. The table below cites one file or the other:
  * `search`: `main.py:60-85` matches `zamunda_api/main.py:93-118`.
  * The sweep: `main.py:21-28` matches `zamunda_api/main.py:47-54`.
* `Api.Server.revision` records which client a front end imports: `Root`
  for `main.py`, `Package` for `zamunda_api/main.py`.
* The two `get_download_link` bodies are the same: `zamunda.py:55-69` and
  `zamunda_api/zamunda.py:80-97`.

Files:

* `wrappers.dfy` holds `Option`.
* `zamunda.dfy` (module `Zamunda`) holds the client.
* `api.dfy` (module `Api`) holds the cache and the route.

How the model is built:

* **The network.** It is the parameter `web: string -> Response`, which maps
  a URL to a status and a parsed document. `Zamunda.Search` and
  `Zamunda.GetDownloadLink` call it just where the source calls
  `session.get`.
* **The page.** A parsed page is abstract. A table is a sequence of rows,
  and a row is a sequence of cells. A cell holds its text, its bold link
  text, the anchors of its first `<div>` and its images.
* **Proofs.** The loops of both methods are proved against the
  specification functions `SearchResults` and `DownloadLink`, and the
  lemmas are stated about those functions. `Api.Swept`, a map
  comprehension, is the reference definition of one sweep: the loop of
  `Api.Server.Cleanup` is proved to produce it.
* **The cache.** It is the `map` field `Api.Server.cache`, and the methods
  reassign it. The current time is the integer parameter `now`, in seconds.

## Model

| member | source | states |
|---|---|---|
| `Zamunda.Normalise` | zamunda_api/zamunda.py:43 | The normalised query has the input's length and no space. Each position holds `+` where the input had a space and the input's character everywhere else. |
| `Zamunda.UrlDeterminesQuery` | zamunda_api/zamunda.py:44 | Two queries give the same search URL (base, `/bananas?search=`, the normalised query, the fixed flag suffix) exactly when their normalised forms are equal. |
| `Zamunda.SpaceAndPlusSearchAlike` | zamunda.py:18-19 | A space and a `+` at the same place in the query give the same URL, because spaces are replaced by `+` and nothing else is escaped. |
| `Zamunda.FirstMagnet` | zamunda_api/zamunda.py:93-97 | Gives None exactly when no anchor's href starts with `magnet:?`. Otherwise gives the href of the first anchor that does: it starts with `magnet:?`, and no earlier anchor matches. |
| `Zamunda.GetDownloadLink` | zamunda.py:55-69 | The early-return loop over the detail page's anchors returns what `DownloadLink` states. That is None on a non-200 status, else the first magnet href, else None. Any link it returns starts with `magnet:?`. |
| `Zamunda.HasBgAudio` | zamunda_api/zamunda.py:65-67 | The bg-audio flag is true exactly when some image of the title cell has a src ending in `bgaudio.png`. |
| `Zamunda.Kept` | zamunda.py:43-45 | The Root revision keeps exactly the hrefs that start with `/magnetlink`. The Package revision keeps every href. The kept list is never longer than the input. |
| `Zamunda.Search` | zamunda_api/zamunda.py:42-79 | Fetches the search URL and returns `SearchResults`, the records of rows `trs[1:]` of the search URL's page. A non-200 status or a missing table gives `[]`. |
| `Zamunda.ExtractRecords` | zamunda_api/zamunda.py:60-78 | The outer loop over the data rows returns `TableRecords`: each row's records, appended in row order. |
| `Zamunda.ExtractRow` | zamunda.py:37-52 | The inner loop over one row's div anchors returns `RowRecords`. That is one record per href passing the revision's filter, in anchor order, each built from the row's name, seeders, bg-audio flag and size. |
| `Zamunda.AnchorRecordsFollowKept` | zamunda_api/zamunda.py:68-78 | A row yields one record per kept href, in anchor order: record j is built from the j-th kept href. So a row with no kept href yields nothing. |
| `Zamunda.TableRecordsAppend` | zamunda_api/zamunda.py:60-78 | The records of rows `a + b` are the records of `a` followed by those of `b`, so output follows row order. |
| `Zamunda.RecordCount` | zamunda.py:36-52 | The number of records is the sum, over data rows, of the number of kept hrefs in the title cell's div. |
| `Zamunda.PackageRecordCount` | zamunda_api/zamunda.py:68-71 | In the Package revision a row yields exactly as many records as its title div has anchors. |
| `Zamunda.RecordOrigin` | zamunda_api/zamunda.py:61-77 | Each record comes from one data row and one of its hrefs that passes the filter. It carries the row's name (cell 1's bold link text), seeders (`tds[-2]`), size (`tds[-4]` in Package, none in Root), bg-audio flag, and the link made from that href. |
| `Zamunda.RootRecordsLinkMagnetPages` | zamunda.py:43-49 | In the Root revision with `provide_magnet` false, every record's link is present and starts with `https://zamunda.net/magnetlink`. |
| `Zamunda.HeaderRowIgnored` | zamunda_api/zamunda.py:57-59 | A 200 page whose table is a header row followed by `rows` yields `rows`' records whatever the header holds. The header needs no particular shape. |
| `Api.CacheKeyInjective` | zamunda_api/main.py:94 | Two calls share a cache key exactly when they have the same query and the same `provide_magnet`. |
| `Api.SweepIdempotent` | main.py:22-28 | A second sweep at the same `now` changes nothing. |
| `Api.SweepPreservesLookup` | zamunda_api/main.py:48-103 | A sweep at `now` never changes whether a lookup at `now` hits, nor what it returns. So the sweep never removes an entry the route would have served. |
| `Api.BoundaryEntry` | zamunda_api/main.py:50-101 | An entry exactly 3600 s old survives the sweep (`<`) but is not a hit (`>`). |
| `Api.StoredResponseLifetime` | zamunda_api/main.py:99-116 | A response stored at `t` is returned by unforced lookups at every `now < t + 3600`, and at no later time. |
| `Api.Server.constructor` | zamunda_api/main.py:40 | The cache starts empty. |
| `Api.Server.Search` | zamunda_api/main.py:93-118 | The client runs exactly when the call is not a hit. A hit returns the stored response and leaves the cache unchanged. Otherwise the call returns the client's `SearchResults` and the entry becomes `{response, now}`. While the client runs, an unforced call has already deleted a stale entry, and a forced call has deleted nothing. No other key changes. |
| `Api.Server.Cleanup` | main.py:21-28 | The set of expired keys is built first, then deleted one key at a time. Afterwards the cache equals `Swept(old cache, now)`: exactly the entries strictly older than `now - 3600` are gone, and the rest are untouched. |
| `Api.RepeatedSearch` | main.py:60-85 | Two unforced calls with the same query at `t1` and `t2`, each against the site as it then answers: the first returns the client's results. The second reaches the client exactly when it comes 3600 s or more after the first; then it returns what the site gives at `t2`, and otherwise the first call's response. |

## Left out

- Login, the `requests` session and `login_headers`: `user` and `password` are only passed through. The source never checks whether login worked, so nothing here depends on it.
- HTML parsing with BeautifulSoup: a page is given as what the client looks up in it (the `zbtable` rows, each cell's text, bold link text, div anchors and images, and the page's anchors). BeautifulSoup tags are always truthy, so `if not table` means only "no table found".
- The network: within one route call `web` is a pure function, so two requests for the same URL in that call get the same answer. Across calls the site may change: `Api.RepeatedSearch` takes one `web` per call.
- Exceptions on malformed rows (too few cells, no title link, no div, an anchor without href, an image without src): these are the preconditions `WellFormedRow` and `WellFormedPage`. Rows are not skipped. The header row is never inspected, so it has no precondition.
- Logging, `print`, the FastAPI routing, `read_root` and `uvicorn.run`: they do not affect results.
- The cleanup thread, its endless loop, the five-minute wait and races between the sweep and requests: `Api.Server.Cleanup` is one sweep, run on its own. `datetime` arithmetic is integer seconds.
- Api.Server.Cleanup: the keys to delete are a set rather than a list, so the order of deletion (which does not affect the result) is not modelled.
- Zamunda.Search: the records are a datatype rather than Python dictionaries. A `Root` record, which has no `size` key, has `size == None`.
- `setup.py` is packaging metadata.
- The source raises on malformed rows rather than skipping them, and the `Package` revision does not filter anchors; the model follows the source. Retries, backoff, credential checks, torrent-file decoding and info hashes do not occur in the source and are not modelled.
