# gotracker: a Dafny model of a BitTorrent tracker announce client

`gotracker.go` is the tracker client of a small BitTorrent implementation in
Go. Its `Tracker` holds the session fields (tracker URL, info hash, peer id,
listening port) and the last `interval` the tracker asked for. `Init` stores
the session fields. `Request` builds the announce URL of the "Trackers"
section of BEP 3 (the BitTorrent protocol specification), sends it, decodes
the bencoded answer and checks its shape. The checks are meant to go as
follows: the root must be a dictionary; a `failure reason` ends the
announce; otherwise `interval` is parsed into `t.interval`, `peers` must be
present, and every peer must be a dictionary. The peers would come back in a
`container/list` built with `PushFront`, so in reverse of the response
order. As written, though, the negated guard at line 53 stops every announce
there, with an error or with nothing, so the `interval` and `peers` checks
never run (see "## Findings"). The model validates as intended and keeps the
literal guard beside it.

The model, one module per concern:

- `bytes.dfy` (`ByteStrings`): Go strings are byte strings; a byte is a
  character below 256.
- `optional.dfy` (`Optional`): an option type for Go's nil results.
- `escape.dfy` (`UrlEscape`): percent-encoding, standing for
  `http.URLEscape`. It follows section 2.1 of RFC 3986 (an octet becomes
  `%` and two upper-case hex digits) and keeps the unreserved set of section
  2.3 of RFC 3986 as is. It also has the decoder `Unescape`, its partner.
- `decimal.dfy` (`Decimal`): `Itoa` and `Atoi`, standing for `strconv`.
- `bencode.dfy` (`Bencode`): the decoded bencode tree (`BeNode` with
  `Bestr`, `Belist`, `Bedict`) as a sum type.
- `query.dfy` (`AnnounceQuery`): the announce URL of gotracker.go:27-35, and
  a query-string reader that states what the URL carries.
- `response.dfy` (`TrackerResponse`): the shape checks of
  gotracker.go:49-79 as a function `Validate`, plus the literal guard of
  line 53 as `ValidateAsWritten`.
- `tracker.dfy` (`GoTracker`): the `Tracker` class with `Init` and
  `Request`, and the peer-collecting loop as `CollectPeers`.

Modelling decisions:

- `Request` takes the decoded response tree as a parameter. It returns the
  URL it would send (`sent`) beside Go's two results (`peers`, `err`).
- `interval.Bestr` is read as follows. A string node gives its bytes. An
  integer node gives its base-ten text. The `./bencode` package is not part
  of this model, so this is an assumption about it. A list or dictionary
  node gives the empty string, so `Atoi` fails.
- `strconv.Atoi` fails on a value that is not an optional sign followed by
  digits. It then returns 0, and line 64 still stores that 0 in `interval`.
  The code does not return there. The error stays in `err` unless a later
  check replaces it. So a bad interval text with a valid peer list gives
  both the peer list and the error. The model does the same.
- A `peers` value that is not a list is treated as an unexpected response.
  The Go code would iterate the node's `Belist` field, which belongs to the
  decoder and is not shown.
- The reason for a tracker failure is carried as the node found under
  `failure reason`.

## Model

| member | source | states |
|---|---|---|
| GoTracker.Tracker.Init | gotracker.go:18-23 | url, infoHash, peerId and port are stored exactly as given; interval is unchanged |
| GoTracker.Tracker.Request | gotracker.go:25-80 | the URL sent is AnnounceUrl of the stored fields and arguments; peers and err are those of Validate on the response; interval takes Validate's value when the interval check is reached and keeps its old value otherwise |
| GoTracker.CollectPeers | gotracker.go:70-78 | the PushFront loop over the peers list returns exactly PeerList: none on a non-dictionary element, otherwise the dictionaries in reverse order |
| GoTracker.InitThenRequest | gotracker.go:18-35 | after Init and Request, the URL is the stored base, '?', and a query that reads back as the seven parameters holding the values given to Init and Request; the outcome and interval are Validate's |
| AnnounceQuery.AnnounceUrl | gotracker.go:27-35 | the URL starts with the tracker's base URL followed by '?'; AnnounceUrlIsJoin and AnnounceUrlDecodes state the rest of its layout and contents |
| AnnounceQuery.AnnounceUrlIsJoin | gotracker.go:27-35 | the URL is the base, '?', then info_hash, peer_id, port, uploaded, downloaded, left and status as key=value parameters joined by '&', in that order |
| AnnounceQuery.AnnounceUrlDecodes | gotracker.go:27-35 | reading the query back gives exactly the seven keys in order, each with its original value (escaped values unescape to the raw bytes); the three counts parse back to the integers |
| UrlEscape.Escape | gotracker.go:29-31 | an escaped value contains only unreserved characters and '%', and is at least as long as the input |
| UrlEscape.EscapeByte | gotracker.go:29-31 | an unreserved byte stands for itself; any other byte becomes '%' and two upper-case hex digits whose values are its high and low nibble |
| UrlEscape.EscapeUnreserved | gotracker.go:31 | text of unreserved characters only, such as a decimal port or "started", reaches the URL unchanged |
| UrlEscape.EscapeHidesReserved | gotracker.go:29-30 | no byte outside the unreserved set, other than '%', appears raw in an escaped info_hash or peer_id |
| UrlEscape.EscapeIsPercentEncoded | gotracker.go:29-31 | escaped text is a sequence of unreserved characters and "%" HEXDIG HEXDIG triplets |
| UrlEscape.UnescapeEscape | gotracker.go:85-87 | unescaping an escaped value gives back the original bytes, binary data included |
| Decimal.Itoa | gotracker.go:32-34 | the rendering is non-empty, digits only apart from a leading '-', which appears exactly for negative numbers |
| Decimal.Atoi | gotracker.go:64 | parsing succeeds exactly on an optional '+' or '-' followed by one or more digits |
| Decimal.AtoiItoa | gotracker.go:91-95 | parsing the base-ten rendering of any integer gives that integer back |
| Decimal.ItoaAtoi | gotracker.go:64 | a digit run without leading zeros parses to the integer whose rendering it is |
| Decimal.AtoiNormal | gotracker.go:64 | a leading '+' or leading zeros leave the parsed value unchanged and a leading '-' negates it, so every text Atoi accepts gets its base-ten value |
| TrackerResponse.IntervalText | gotracker.go:64 | the text given to Atoi: a string node's own bytes; an integer node's text, which parses back to its value; nothing parseable for a list or dictionary node |
| TrackerResponse.PeersOf | gotracker.go:71 | the peers value holds a peer list exactly when it is a list whose elements are all dictionaries; the list then has one entry per element, in reverse order |
| TrackerResponse.PeerList | gotracker.go:70-78 | a peer list exists exactly when every element is a dictionary; it has one entry per element, in reverse of response order |
| TrackerResponse.Validate | gotracker.go:49-79 | peers are returned exactly when the root is a dictionary without failure reason, with interval, and with a peers list of dictionaries, and then in reverse order; interval is assigned exactly when the first three checks pass, to Atoi's value or 0; a failure reason gives TrackerFailure and nothing else; no peers always comes with an error |
| TrackerResponse.ValidateSucceedsIffAccepted | gotracker.go:120 | validation ends without error exactly on responses that follow the response rules (no failure reason, numeric interval, peers a list of dictionaries), and then reports the parsed interval |
| TrackerResponse.NonDictRootIsUnexpected | gotracker.go:49-52 | a root that is not a dictionary gives the unexpected-response error, no peers and no interval |
| TrackerResponse.MissingKeyIsUnexpected | gotracker.go:60-69 | without failure reason, a missing interval or peers key gives the unexpected-response error and no peers |
| TrackerResponse.NonDictPeerFailsAll | gotracker.go:70-77 | one non-dictionary element in peers makes the whole response fail with no peer list |
| TrackerResponse.ValidateAsWritten | gotracker.go:49-59 | with the guard as written, no response ever yields a peer list or reaches the interval assignment, and the error is nil exactly for a dictionary with failure reason |
| TrackerResponse.AsWrittenDiffers | gotracker.go:53-59 | as written, a valid one-peer response is rejected and a tracker failure returns nil, nil; validated as intended they give the peer with interval 1800 and the tracker's failure reason |

## Findings

| source | as written | input that shows it | evidently intended | confidence | as-written member | corrected member |
|---|---|---|---|---|---|---|
| gotracker.go:53 | the guard on the `failure reason` lookup is negated (`!ok`): it returns the "unexpected response" error when there is no failure reason, and returns nil, nil when there is one; lines 60-80 can never run | the dictionary `{"interval": 1800, "peers": [{"ip": "127.0.0.1", "peer id": "AAAAAAAAAAAAAAAAAAAA", "port": 6881}]}` is rejected; `{"failure reason": "torrent banned"}` returns no peers and no error | a failure reason ends the announce as a tracker failure; without one, the interval and peers checks run (the response rules at gotracker.go:120) | not executed; high, since from the code's own error message and doc comment | TrackerResponse.AsWrittenDiffers | TrackerResponse.Validate |

## Left out

- HTTP: `http.Get`, the status check and the body reader (gotracker.go:37-44) are network I/O. The status check's error is also lost when `err` is reassigned at line 45.
- The bencode byte-stream decoder `buf.Decode` (gotracker.go:43-48). `./bencode` is not part of this model; `Request` takes the decoded tree.
- `println` and `print` (gotracker.go:36, 57): console output.
- The optional parameters `compact`, `numwant`, `ip`, `key` and `trackerid` (gotracker.go:97-114): the code never sends them.
- `http.URLEscape` and `strconv` are not part of this model. `UrlEscape.Escape` follows RFC 3986 rather than that Go release's own character set and its space-to-'+' rule.
- Decimal.Itoa: integers are unbounded, so Go's fixed-width `int` is not modelled. Neither is `Atoi`'s out-of-range error with its clamped value.
