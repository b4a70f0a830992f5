# Uptime monitor: status transitions and paginated status query

A model, in Dafny, of the deterministic core of a small Go uptime monitor
(`main.go`). The monitor probes a fixed list of websites once a minute, keeps
each website's last status (`"up"` or `"down"`) in a global map, sends a
"Website Down" e-mail when a website goes down, and serves the map sorted and
paginated at `GET /status?page=&limit=`.

Five modules:

- `Transition` (`transition.dfy`) — the step of `checkWebsite` once the HTTP
  probe has returned, as a pure function `Step` on the status map; a round as
  the fold of `Step` over the configured websites (`Round`), successive rounds
  (`Rounds`) and the history of one website (`History`), with the lemmas about
  them: one alert per outage, no recovery alert, each check touches only its
  own entry.
- `Monitor` (`monitor.dfy`) — the global `statusMap` as a class `StatusStore`
  whose methods update it in place: `CheckWebsite`, `RunRound`,
  `StartMonitoring`, and the query `Status` (`statusHandler`). The e-mails
  are recorded in the field `alerts`, one URL per `sendEmail` call, in order.
- `Pagination` (`pagination.dfy`) — defaulting of `page` and `limit`, the page
  count, the clamped window, the page itself, the snapshot of the map
  (collected, then sorted in place on an array), and the lemmas: pages cover
  the snapshot exactly, the sorted snapshot is unique.
- `Strings` (`strings.dfy`) — Go's `<` on strings as a lexicographic order,
  with irreflexivity, asymmetry, transitivity and totality.
- `Wrappers` (`wrappers.dfy`) — the `Option` type for results of parsing.

Inputs that come from outside the core are parameters: the outcome of
`http.Get` is a `Probe` (`TransportError` or `HttpResponse(statusCode)`), and
the results of `strconv.Atoi` on the query parameters are `Option<int>`
(`None` for a missing or non-numeric parameter).

The map starts empty (main.go:40). A website gets its entry on its first
check, and an absent entry reads as Go's zero value `""`, which is not
`"down"`, so a never-checked website behaves as one stored `"up"`. On a
repeated down the code writes nothing (main.go:69-72, 82-85), so the model
leaves the map unchanged.

Strings are `seq<char>`. Go compares strings byte by byte in UTF-8; comparing
Unicode scalar values by code point gives the same order, so `Strings.Less`
compares characters.

## Model

| member | source | states |
|---|---|---|
| `Transition.AbsentActsAsUp` | main.go:65-86 | a never-checked website (no entry, read as `""`) gets the same e-mail decision and new entry as one stored "up": an e-mail exactly on a down probe |
| `Transition.Classify` | main.go:67-81 | a probe is up exactly when there is no transport error and the status code is in 200..299; the result is always "up" or "down" |
| `Transition.Step` | main.go:65-86 | an e-mail is sent exactly when the probe is down and the previous entry is not "down" (absent included); afterwards the URL's entry is the probe's classification; a repeated down leaves the map unchanged; keys grow by the URL only and every other entry is unchanged; well-formedness is kept |
| `Transition.StepIsLocal` | main.go:65-86 | a check's e-mail decision and new entry depend only on the URL's own previous entry |
| `Transition.Round` | main.go:93-100 | one round checks each configured website in turn: at most one e-mail per check, only for configured websites, and well-formedness is kept |
| `Transition.NoRecoveryAlert` | main.go:77-79 | a 2xx probe never sends an e-mail and stores "up", whatever was stored, including on down-to-up recovery |
| `Transition.RoundFrom` | main.go:93-100 | a round from check i on is check i followed by the round from check i+1 on |
| `Transition.RoundCoversWebsites` | main.go:93-100 | after a round every configured website has an entry equal to "up" or "down"; the keys are the old keys plus the websites; other entries are unchanged; only checked websites are alerted, at most once per check |
| `Transition.RoundKeys` | main.go:93-100 | after a round the keys of the map are the old keys plus the configured websites |
| `Transition.RoundKeepsOthers` | main.go:93-100 | a round leaves the entry of an unchecked URL as it was and sends it no e-mail |
| `Transition.RoundUnfold` | main.go:93-100 | a round is its first check followed by the rest; the e-mail counts add up |
| `Transition.RoundPerWebsite` | main.go:93-100 | with distinct websites, each website's entry after a round and its number of e-mails (0 or 1) are those of checking it alone, whatever the order of the other checks |
| `Transition.LaterWebsite` | main.go:93-100 | checking the first website of a round does not change the outcome for any later, different website |
| `Transition.FirstWebsite` | main.go:93-100 | the later checks of a round leave the first website's entry and e-mail count as its own check made them |
| `Transition.History` | main.go:61-87 | one website's checks over successive rounds send at most one e-mail per check |
| `Transition.HistoryEndsWithLastProbe` | main.go:61-87 | after one or more checks the website's entry is the classification of its last probe |
| `Transition.HistoryUnfold` | main.go:61-87 | a website's history is its first check followed by the rest |
| `Transition.HistoryIsLocal` | main.go:65-86 | a website's successive checks send the same e-mails and end in the same entry on any two maps that agree on its entry |
| `Transition.StaysDownSilently` | main.go:67-85 | while a website stored as "down" keeps probing down, no e-mail is sent and the map does not change |
| `Transition.OneAlertPerOutage` | main.go:67-85 | N >= 1 consecutive down probes from a non-"down" entry send exactly one e-mail, on the first of them, and leave the entry "down" |
| `Transition.Rounds` | main.go:89-119 | the initial round and one round per tick: e-mails only for configured websites, well-formedness kept |
| `Transition.RoundsFrom` | main.go:105-118 | the rounds from round k on are round k followed by the rounds from k+1 on |
| `Transition.ColumnUnfold` | main.go:105-118 | the probes one website saw over the rounds are those of the first round followed by those of the later rounds |
| `Transition.RoundsPerWebsite` | main.go:89-119 | over successive rounds with distinct websites, each website's entry and its total number of e-mails are those of its own probe history |
| `Transition.LaterRounds` | main.go:89-119 | the first round followed by the later ones keeps each website's entry and e-mail count equal to those of its own history |
| `Transition.RoundsUnfold` | main.go:105-118 | successive rounds are the first round followed by the rest; the e-mail counts add up |
| `Transition.OneAlertPerOutageAcrossRounds` | main.go:89-119 | a website down in each of N >= 1 successive rounds, from a non-"down" entry, gets exactly one e-mail over all of them |
| `Transition.DownDownUpScenario` | main.go:61-86 | a never-checked website probed transport error, 503, 200 ends "up" with exactly one e-mail, sent on the first down |
| `Monitor.StatusStore.constructor` | main.go:40 | the status map starts empty and no e-mail has been sent |
| `Monitor.StatusStore.CheckWebsite` | main.go:61-87 | the in-place check: the new map and the e-mail flag are those of `Step` on the old map; the e-mail log grows by the URL exactly when an e-mail is sent |
| `Monitor.StatusStore.RunRound` | main.go:93-100 | one round over `config.Websites`: the map and the e-mail log end as `Round` says |
| `Monitor.StatusStore.StartMonitoring` | main.go:89-120 | the initial round and one round per tick, none overlapping: the map and the e-mail log end as `Rounds` says |
| `Monitor.StatusStore.Status` | main.go:133-178 | the response is the requested page of the map's sorted snapshot; its page count is the ceiling of the map's size over the limit; it echoes the defaulted page; every entry in it is an entry of the map, with status "up" or "down" |
| `Pagination.ParamOrDefault` | main.go:137-145 | a parsed value of at least 1 is kept; a failed parse or a value below 1 gives the default; the result is at least 1 |
| `Pagination.TotalPages` | main.go:160-161 | the page count is the ceiling of items over limit: enough pages for every item, no page more, and 0 exactly when there are no items |
| `Pagination.Window` | main.go:163-170 | start and end are (page-1)*limit and page*limit clamped to the item count, so 0 <= start <= end <= items and end - start <= limit |
| `Pagination.PageOf` | main.go:163-172 | the page starts at (page-1)*limit clamped to the item count and holds min(limit, items - start) entries |
| `Pagination.EmptyPastLastPage` | main.go:160-172 | a page is empty exactly when its number exceeds totalPages |
| `Pagination.PastLastPage` | main.go:161-170 | a page starts at the end of the items exactly when its number exceeds the page count |
| `Pagination.Respond` | main.go:137-178 | the envelope echoes the defaulted page, gives the page count at the defaulted limit, and carries that page of the snapshot: at most `limit` entries, none exactly when the page is past the last |
| `Pagination.DefaultingIsUniform` | main.go:137-145 | page missing, non-numeric, 0 or negative answers like page=1; limit likewise like limit=10 |
| `Pagination.PagesArePrefix` | main.go:160-172 | pages 1..k together are the first min(k*limit, items) entries of the snapshot |
| `Pagination.PagesCoverSnapshot` | main.go:149-172 | pages 1..totalPages concatenated give back the snapshot: every entry once, in order, none left out |
| `Pagination.ThreeItemsTwoPerPage` | main.go:160-178 | 3 items at limit 2: 2 pages of 2 and 1 entries; page 3 is empty with currentPage 3 and totalPages 2 |
| `Pagination.RespondWithParams` | main.go:137-178 | valid explicit page and limit parameters are used as given |
| `Pagination.CollectEntries` | main.go:149-152 | the range loop yields each entry of the map exactly once and nothing else |
| `Pagination.SortByUrl` | main.go:156-158 | sorting leaves no entry with a larger URL before a smaller one, permutes the entries, and keeps distinct URLs distinct |
| `Pagination.InsertIntoPrefix` | main.go:156-158 | one insertion pass extends the ordered prefix by one entry, leaves the entries after it as they were, and permutes the entries |
| `Pagination.SwapAdjacent` | main.go:156-158 | exchanging two neighbours permutes the entries and keeps distinct URLs distinct |
| `Pagination.OrderedDistinctIsSorted` | main.go:156-158 | an ordered sequence with distinct URLs is strictly ascending by URL |
| `Pagination.PermutedSnapshot` | main.go:149-158 | a permutation of a snapshot with distinct URLs is still a snapshot |
| `Pagination.SortedSnapshot` | main.go:147-158 | the snapshot holds every entry of the map once and is strictly ascending by URL |
| `Pagination.SortedSameElements` | main.go:155-158 | two URL-sorted sequences with the same elements are equal |
| `Pagination.TailMember` | main.go:155-158 | in a URL-sorted sequence no later element equals the first |
| `Pagination.TailMemberBack` | main.go:155-158 | an element other than the first lies in the tail |
| `Pagination.SortedSnapshotUnique` | main.go:155-158 | the sorted snapshot of a map is unique, whatever order the map iteration used |
| `Pagination.ThreeWebsitesFirstPage` | main.go:133-178 | websites a.com, b.com, c.com all up, page=1&limit=2: totalPages 2, currentPage 1, data a.com and b.com |
| `Pagination.ThreeWebsitesSorted` | main.go:149-158 | the sorted snapshot of that map is a.com, b.com, c.com |
| `Strings.Less` | main.go:157 | Go's `<` on strings: nothing is less than the empty string, and a proper prefix is smaller |
| `Strings.LessIsFirstDifference` | main.go:157 | `a < b` exactly when at the first index where they differ `a` has ended or holds the smaller element and `b` has not ended |
| `Strings.LessIrreflexive` | main.go:157 | no string is less than itself |
| `Strings.LessAsymmetric` | main.go:157 | a < b excludes b < a |
| `Strings.LessTransitive` | main.go:157 | a < b and b < c give a < c |
| `Strings.LessTotal` | main.go:157 | two different strings are ordered one way or the other |
| `Strings.NotLessTransitive` | main.go:157 | "not greater than" is transitive |

## Left out

- `http.Get` and `resp.Body.Close` (network I/O): the probe outcome is an input; no request timeout is modelled.
- `sendEmail` (SMTP transport, message formatting): modelled as the notify flag and the `alerts` log; its success or failure does not affect the status write, as in the code.
- `loadConfiguration` (file open and JSON decoding): the website list is a parameter.
- Goroutines, `sync.WaitGroup`, `statusMutex` and `time.Ticker`: a round runs its checks one after the other in configuration order, and the unending ticker loop becomes a finite sequence of rounds given as input. `RoundPerWebsite` shows the order of checks does not matter when the websites are distinct. With a website listed twice the source's goroutines race for its entry; the model takes configuration order.
- The lock being held across `sendEmail`, and queries that interleave with a round: not modelled (the query reads the map between checks).
- `startAPIServer`, `main`, HTTP headers, JSON encoding and all `fmt.Print*` logging. In particular, with an empty map the Go slice of entries stays nil and the handler sends `"data":null`; the model's `data` is then `[]`, which stands for that response.
- `strconv.Atoi` parsing itself: its result is the `Option<int>` parameter.
- `Pagination.TotalPages`: does not model Go's fixed-width `int` overflow of `totalItems + limit - 1`, because integers here are unbounded; results differ only for limits near the largest `int`.
- `Pagination.Window`: does not model Go's fixed-width `int` overflow of `(page-1)*limit` and `start + limit`, for the same reason. On 64-bit `int`, `page=4611686018427387905&limit=3` makes `(page-1)*limit` wrap to -2^62; the clamps at main.go:165-170 only cap from above, so `statuses[start:end]` panics and the request gets no response, where the model returns an empty page.
- `sort.Slice`'s own algorithm: the model sorts with insertion sort; only the result (ordered and a permutation) is claimed, which is all the source relies on.
