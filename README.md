# Film feed scraper — a Dafny model

`film_scraper.py` downloads the first three pages of a video feed, extracts five
fields from every film card on each page, drops cards whose title has been seen
before, reduces the collected list to distinct records and writes it to a
spreadsheet. This project models the decision logic of that script and proves
what it guarantees:

- **Fetch with retries** (`Fetcher`). `fetch_films(url, retries)` makes up to
  `retries` GET requests. It returns the body of the first status-200 response
  and pauses once after every failed attempt, the last one included. The network
  is a parameter `server(url, k)`: the response to the k-th GET of `url`.
- **Field extraction with fallbacks** (`Extractor`). A film card is given by the
  five results of its `find` calls. Each field becomes the node's text with
  Python's `str.strip()` applied, or a fixed placeholder when the node is absent:
  "Название не найдено" for the title, "Не указано" for the duration and the
  author, and "Нет данных" for the publish date and the view count. The view count
  first loses every no-break space (U+00A0). `str.strip()` is modelled with
  Python's own whitespace set (`str.isspace`).
- **Stage 1, the title gate** (`Dedup.KeepFirstByTitle`, `Pipeline.CollectPage`).
  `data` grows by `append` and `unique_titles` by `add`. A record is appended only
  if its title is new, so the first card with a given title wins.
- **Stage 2, the record dedup** (`Dedup.DistinctRecords`). The comprehension at
  line 91 keeps one copy of each distinct record. Its order is unspecified.
- **The page loop** (`Pipeline`). The loop requests `base?page=n` for n = 1..num_pages.
  A falsy result (`None` or an empty body) adds nothing. Otherwise the page's cards
  go through extraction and stage 1, followed by one pause.

The main result is `Pipeline.Run`. Its final list contains exactly the first record
of each title, once each, so the row count equals the unique-title count printed
at the end. Stage 2 therefore never removes anything (`Dedup.Stage2RemovesNothing`).

A placeholder replaces only an absent field node. A field node that is present but
holds only whitespace becomes `""`, not the placeholder
(`Extractor.BlankTextGivesEmptyField`).

Files: `wrappers.dfy` (Option), `strings.dfy` (strip, replace, decimal formatting),
`fetcher.dfy`, `extractor.dfy`, `dedup.dfy`, `pipeline.dfy`.

## Model

| member | source | states |
|---|---|---|
| `Strings.StripLeftSpec` | film_scraper.py:51 | `lstrip` leaves the suffix after the leading whitespace: everything dropped is whitespace and the result does not start with whitespace |
| `Strings.StripRightSpec` | film_scraper.py:51 | `rstrip` leaves the prefix before the trailing whitespace: everything dropped is whitespace and the result does not end with whitespace |
| `Strings.StripSpec` | film_scraper.py:51 | `strip` returns a slice of its input with only whitespace before and after it, and the slice neither starts nor ends with whitespace |
| `Strings.StripUnique` | film_scraper.py:51 | any edge-trimmed text that the input holds between two runs of whitespace is exactly `Strip` of it, so the characterisation determines `strip` |
| `Strings.Strip` | film_scraper.py:51 | `str.strip()`, specified by `StripSpec` and `StripUnique`: the unique slice of the text framed by whitespace only and with no whitespace at either end |
| `Strings.RemoveAll` | film_scraper.py:69 | `replace(c, '')`, specified by `RemoveAllSpec`, `RemoveAllConcat` and `RemoveAllChar` |
| `Strings.RemoveAllSpec` | film_scraper.py:69 | `replace('\xa0', '')` leaves no occurrence of the character and keeps every other character with its multiplicity (`multiset(r) == multiset(s)[c := 0]`); its length drops by the number of occurrences |
| `Strings.RemoveAllConcat` | film_scraper.py:69 | `replace(c, '')` distributes over concatenation, so it keeps the order of the characters it keeps |
| `Strings.RemoveAllChar` | film_scraper.py:69 | on a single character, `replace(c, '')` gives `""` when the character is `c` and the character itself otherwise |
| `Strings.DecimalString` | film_scraper.py:36 | `f"{page}"` is a non-empty string of decimal digits without a leading zero |
| `Strings.DecimalRoundTrip` | film_scraper.py:36 | reading the decimal rendering of n back gives n |
| `Strings.DecimalInjective` | film_scraper.py:36 | different page numbers render differently |
| `Fetcher.FetchFrom` | film_scraper.py:20-26 | the retry loop from attempt k on, specified by `FetchFromSpec` |
| `Fetcher.Fetch` | film_scraper.py:18-26 | `fetch_films(url, retries)` as a value, specified by `FetchSpec` |
| `Fetcher.Pauses` | film_scraper.py:25 | the `time.sleep(1)` calls of one fetch; `FetchSpec` proves it is one fewer than the requests on success and equal to them on failure |
| `Fetcher.FetchFromSpec` | film_scraper.py:20-26 | starting after k failed attempts, the loop returns the body of the first status-200 response before `retries`, with no request after it; otherwise `None` after max(retries, k) requests |
| `Fetcher.FetchSpec` | film_scraper.py:18-26 | a body is returned iff one of the first `retries` responses has status 200; it is the first such body and comes after exactly that many requests and one pause fewer; otherwise `None` after exactly `retries` requests and `retries` pauses (none if `retries` ≤ 0) |
| `Fetcher.FetchFilms` | film_scraper.py:18-26 | the counted loop with early return computes exactly `Fetch`: the same result, the same number of requests and `Pauses` pauses |
| `Extractor.Field` | film_scraper.py:49-65 | a plain field: stripped node text or the placeholder; specified by `ExtractItemSpec` |
| `Extractor.ViewsField` | film_scraper.py:68-69 | the view count: node text without U+00A0, stripped, or "Нет данных"; specified by `ExtractItemSpec` and `ExtractedFieldsClean` |
| `Extractor.ExtractItem` | film_scraper.py:49-69 | one film card to one record, specified by `ExtractItemSpec` and `ExtractedFieldsClean` |
| `Extractor.ExtractItemSpec` | film_scraper.py:49-69 | each field is its node's text with the surrounding whitespace removed (for the view count, after removing every U+00A0), or that field's own placeholder when the node is absent |
| `Extractor.PlaceholdersDistinct` | film_scraper.py:51-69 | the title placeholder, the duration and author placeholder, and the date and view-count placeholder are three different strings |
| `Extractor.PlaceholdersClean` | film_scraper.py:51-69 | no placeholder has surrounding whitespace, and the view-count placeholder holds no U+00A0 |
| `Extractor.ExtractedFieldsClean` | film_scraper.py:49-69 | no field of an extracted record has surrounding whitespace, and the view count never contains U+00A0, whether its node is present or not |
| `Extractor.BlankTextGivesEmptyField` | film_scraper.py:51 | a present node whose text is whitespace only yields the empty string, not the placeholder |
| `Extractor.ViewsExample` | film_scraper.py:69 | the view text " 1\xa0234\n" is extracted as "1234" |
| `Dedup.KeepFirstByTitle` | film_scraper.py:71-83 | stage 1 over a stream of records, specified by `KeepFirstInvariant`, `SeenTitleSkipped`, `NewTitleAppended` and `KeepFirstMembers` |
| `Dedup.KeepFirstInvariant` | film_scraper.py:71-83 | after any stream of items, the collected titles are pairwise distinct and equal the set of titles of all items seen |
| `Dedup.SeenTitleSkipped` | film_scraper.py:72-73 | an item whose title was already seen leaves the collected list unchanged |
| `Dedup.NewTitleAppended` | film_scraper.py:74-83 | an item with an unseen title is appended at the end of the collected list |
| `Dedup.KeepFirstMembers` | film_scraper.py:71-83 | a record is kept iff it is, somewhere in the stream, the earliest item carrying its title (first occurrence wins) |
| `Dedup.FirstWins` | film_scraper.py:72-83 | among items sharing a title, including all cards whose title fell back to the placeholder, the earliest is kept and it is the only kept record with that title, whatever its other fields |
| `Dedup.DistinctTitlesCount` | film_scraper.py:115 | a list with pairwise distinct titles has exactly as many records as titles |
| `Dedup.KeepFirstCount` | film_scraper.py:71-83 | the stage-1 invariants together: distinct titles, `unique_titles` equal to the titles of `data`, and `len(data) == len(unique_titles)` |
| `Dedup.DistinctRecords` | film_scraper.py:91 | stage 2 returns a list with no two equal records and with exactly the records of its input |
| `Dedup.DistinctRecordsCount` | film_scraper.py:91 | the length of the stage-2 list is the number of distinct records of its input |
| `Dedup.NoDuplicatesMultiplicity` | film_scraper.py:91 | a list without duplicates holds each of its records exactly once |
| `Dedup.Stage2RemovesNothing` | film_scraper.py:91 | on a list with distinct titles, stage 2 returns a permutation of it (the same multiset), whose length equals the number of titles |
| `Pipeline.PageUrl` | film_scraper.py:36 | the page URL starts with the base URL; `PageUrlInjective` and `ScriptUrls` say the rest |
| `Pipeline.Loaded` | film_scraper.py:40 | the truth test of `html_content`, used by `UnloadedPageAddsNothing` |
| `Pipeline.Collected` | film_scraper.py:35-69 | every extracted record of pages 1..n in page order; `CollectPages` proves the loop computes stage 1 of it |
| `Pipeline.RequestLog` | film_scraper.py:35-38 | every GET of pages 1..n in order, specified by `RequestLogShape` and `RequestsPerPage` |
| `Pipeline.PauseCount` | film_scraper.py:35-88 | every pause of pages 1..n; `CollectPages` proves the loop takes exactly these |
| `Pipeline.PageUrlInjective` | film_scraper.py:36 | different page numbers give different page URLs |
| `Pipeline.NoPages` | film_scraper.py:35 | a run over no pages (num_pages ≤ 0) collects, requests and pauses nothing |
| `Pipeline.UnloadedPageAddsNothing` | film_scraper.py:38-40 | a page whose fetch gave `None` or an empty body adds no record, so `data` and `unique_titles` stay as they were |
| `Pipeline.RequestLogShape` | film_scraper.py:35-38 | the GETs of a run are for page URLs 1..n only, in ascending page order, between n and `Retries`·n of them |
| `Pipeline.RequestsPerPage` | film_scraper.py:35-38 | each page p in 1..n is requested exactly as often as its fetch asked, between 1 and `Retries` times, and no page after n is requested |
| `Pipeline.AllPagesFail` | film_scraper.py:35-40 | if every request fails, nothing is collected, each page is requested exactly `Retries` times, and the GETs and pauses both total `Retries`·n |
| `Pipeline.ScriptUrls` | film_scraper.py:30-36 | the script's pages are "https://rutube.ru/feeds/top/?page=1" to "…?page=3" |
| `Pipeline.ScriptRequests` | film_scraper.py:30-38 | the script with `num_pages = 3` requests each of pages 1 to 3 between one and three times, three to nine GETs in all |
| `Pipeline.ScriptRequestsOnlyPages` | film_scraper.py:30-38 | the script requests nothing but the URLs of pages 1 to 3 |
| `Pipeline.TwoCardScenario` | film_scraper.py:35-88 | a page that loads on the second attempt with two cards, the second lacking its author node, gives two GETs, two pauses and both records, the second with author "Не указано" |
| `Pipeline.CollectPage` | film_scraper.py:47-83 | the inner loop extends `data` to stage 1 of everything seen so far followed by the page's extracted cards, and keeps `unique_titles` equal to its titles |
| `Pipeline.ScrapePage` | film_scraper.py:36-88 | one turn of the page loop: the page's records pass through stage 1 only if the page loaded, and the turn issues the GETs and pauses of its fetch plus one pause when the page loaded |
| `Pipeline.CollectPages` | film_scraper.py:35-88 | after the loop, `data` is stage 1 of all records of pages 1..num_pages in page order, `unique_titles` is their titles, and the GETs and pauses are exactly `RequestLog` and `PauseCount` |
| `Pipeline.Run` | film_scraper.py:35-91 | the final list is stage 2 of stage 1 of everything collected; it has no duplicate records, is a permutation of the stage-1 list, and its length equals the number of unique titles |

## Left out

- `requests.get` and HTTP are the `server` parameter. A request that raises, such as a connection error or a timeout, is not modelled. The script does not catch these, so such an exception ends the run.
- The network is modelled as `(url, attempt) -> response`, not as a stateful stream. Each URL is fetched by a single `fetch_films` call, so the two views agree for this script.
- BeautifulSoup parsing, `find_all` and `find` are not modelled. `parse` is a parameter that gives the film cards of a page, and each card is the five optional texts its `find` calls return.
- Writing the spreadsheet with pandas (film_scraper.py:94-96) is file output through a foreign library.
- `is_file_in_use` and the `subprocess.Popen` auto-open (film_scraper.py:8-15, 99-106) are OS-level file and process calls with no decision logic.
- `time.sleep` is counted as pauses. The length of each pause is not modelled.
- The `print` logging (film_scraper.py:24, 37, 41, 73, 85, 88, 108-115) is console output. The unique-title count of line 115 appears as `|uniqueTitles|` in `Pipeline.Run`.
- Dedup.DistinctRecords: the function keeps first occurrences in their original order. Python returns the records in set-iteration order, which depends on string hashes. The contracts of `DistinctRecords`, `DistinctRecordsCount` and `Stage2RemovesNothing` do not depend on that order: they state the set of records, no duplicates and the multiset.
- Pipeline.Run: the clause `data == DistinctRecords(...)` fixes the order this model chose for stage 2. The script's order is a permutation of it, unspecified. What holds whatever that order is stated by the other clauses: the multiset, no duplicates and the length.
