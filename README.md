# arris_cable_modem_stats, modelled in Dafny

The poller logs in to an Arris cable modem's web interface, fetches the
channel status page, and turns the page's HTML tables into a snapshot
`{downstream: [...], upstream: [...]}`. The snapshot holds one record per
channel. The poller then hands the snapshot to a sink: InfluxDB 1.x or
2.x, or AWS Timestream. This project models the core of that program and
proves properties of the model:

- `main` is a trace-producing loop. The modem's answers are input
  sequences, and sleeping, exiting, raising and sending are trace events.
  This covers the current poller (`Poller`) and the older script
  (`ScriptPoller`).
- The classification of HTTP replies and the login URL: `Http` and
  `Base64` (section 4 of RFC 4648).
- The table-row parsers over an abstract document: `Soup`, `Sb8200`,
  `Sb8200Script`, `Sb6183` and `T25`. The T25 module also has its redirect
  walk and its token.
- `get_config` and `str_to_bool`: `Config`.
- The series and record lists each sink builds, and what each sink does
  with the answers of its client: `Influx` and `Timestream`.

Python's `str` operations, `int()` and `float()` literals are in `Text`
and `Stats`. Exceptions are the `Fault` values of `Common`.

The loops of the source are methods with loop invariants. Each is proved
equal to a specification function, and the properties are lemmas about
those functions.

src/arris_stats.py:371-468 is a second copy of `parse_html_sb6183`. It
reads the same tables and cells as src/arris_stats_sb6183.py, so module
`Sb6183` models both.

The sink modules src/arris_stats_influx1.py, src/arris_stats_influx2.py
and src/arris_stats_influx.py test `'.' in value`. That test raises
TypeError on the int and float values the current sb8200 and sb6183
parsers produce (`Influx.FieldValue`). Only string-valued snapshots (T25,
the older sb8200) get through those sinks.

## Model

| member | source | states |
|---|---|---|
| Base64.Encode | src/arris_stats.py:226 | the encoding of n bytes has 4·⌈n/3⌉ characters |
| Base64.EncodeAlphabet | src/arris_stats.py:226 | every character of the encoding is from the RFC 4648 alphabet or the pad '=' |
| Base64.DecodeEncode | src/arris_stats.py:225-227 | strict decoding of `b64encode(bs)` gives `bs` back, for every byte sequence |
| Base64.AsciiBytes | src/arris_stats.py:226 | `encode('ascii')` succeeds exactly when every character is below 128, and then each byte is the character's code |
| Base64.AuthUrl | src/arris_stats.py:225-227 | a password of None raises TypeError; otherwise the URL exists exactly when `user:password` is ASCII, and it raises UnicodeEncodeError when not |
| Base64.AuthUrlRoundTrip | src/arris_stats.py:225-227 | a login URL is `url + '?'` followed by text that decodes to `username:password` |
| Text.Strip | src/arris_stats.py:316 | the result has no whitespace at either end, whitespace being every character `str.isspace()` accepts |
| Text.StripCutsSpace | src/arris_stats.py:316 | the result is a slice of the text, and everything cut from either end is whitespace |
| Text.StripIdempotent | src/arris_stats.py:316 | stripping twice is stripping once |
| Text.ParseDigits | src/arris_stats.py:323 | `int()` of an all-digit string is its decimal value |
| Text.IntToStringRoundTrip | src/arris_stats_aws_timestream.py:60 | `int(str(n)) == n` for every int |
| Text.ReplaceNLength | src/arris_stats.py:301 | a replace limited to n rewrites exactly min(n, count) occurrences |
| Text.ReplaceNFirst | src/arris_stats.py:301 | a limited replace keeps the text before the first occurrence, rewrites that occurrence and goes on after it with one replacement fewer; a limit of 0 keeps the text |
| Text.ReplaceNKeepsPrefix | src/arris_stats.py:301 | text in which no occurrence starts is kept in front of the replace of the rest |
| Text.ReplaceTwoFirst | src/arris_stats.py:301 | a replace limited to two rewrites the first two occurrences and keeps the text before, between and after them |
| Text.ReplaceOnlyFirst | src/arris_stats.py:301 | with a single occurrence, any positive limit rewrites it and keeps the rest |
| Text.ReplaceNCoversAll | src/arris_stats.py:301 | with a limit of at least the number of occurrences, the limited replace equals the unlimited one |
| Text.ReplaceAbsent | src/arris_stats.py:301 | text without the pattern is left unchanged and has count 0 |
| Text.RemoveUnitSuffix | src/arris_stats.py:324 | removing the unit from `value + unit` gives `value` when no character of the value can start the unit |
| Text.Lower | src/arris_stats.py:663 | ASCII `lower()`: keeps the length, lowers each ASCII upper-case letter and keeps every other character |
| Text.RFind | src/arris_stats_t25.py:19 | `rfind` gives the last index holding the character, or -1 |
| Text.PyPrefix | src/arris_stats_t25.py:19 | `s[:i]` is a prefix of `s`, with Python's length rules for negative and oversized `i` |
| Text.SplitJoin | src/arris_stats_t25.py:19 | joining the parts of `split` gives the text back, and no part holds the separator |
| Stats.GetMeaning | src/arris_stats_influx1.py:37 | a lookup finds a key exactly when the record has it, and gives the value of its first entry |
| Stats.Field | src/arris_stats_aws_timestream.py:60 | `record[key]` succeeds exactly when the key is present and raises KeyError otherwise |
| Stats.PyInt | src/arris_stats.py:497 | `int()` keeps an int, parses a str, and raises ValueError only on a str that is not an integer literal |
| Stats.PyFloat | script/arris_stats.py:257 | `float()` always gives a float; it never fails on an int or a float, and parses a str like `float(text)` |
| Stats.IntField | src/arris_stats.py:324 | `int(text)` succeeds exactly when the text is an integer literal, and gives its value |
| Stats.FloatField | src/arris_stats.py:325 | `float(text)` succeeds exactly when the stripped text is a float literal, and keeps that literal |
| Stats.NonChannel | src/arris_stats.py:500-503 | the entries a sink loop visits: none is `channel_id`, each comes from the record, and every other entry is among them |
| Soup.TableAt | src/arris_stats.py:312 | `find_all("table")[i]` exists exactly when i is in range, and raises IndexError otherwise |
| Soup.CellAt | src/arris_stats.py:316 | `find_all('td')[i].text` exists exactly when i is in range, and raises IndexError otherwise |
| Soup.CellValue | src/arris_stats.py:324-328 | a missing cell raises IndexError; any other failure is a ValueError; `int` gives an int, `float` a float, and text is the cell with the unit removed and stripped |
| Soup.ColumnsSpec | src/arris_stats.py:324-337 | a row converts exactly when every column converts, and then gives one entry per column in order; otherwise it reports the first column that raised |
| Soup.UnitSuffixRemoved | src/arris_stats.py:324-326 | a cell holding `value + unit` converts exactly as `value` does |
| Soup.IntUnitCell | src/arris_stats.py:324 | a cell `<digits> Hz` read as an int gives the digits' value |
| Soup.FloatUnitCell | src/arris_stats.py:325 | a cell `<literal> dBmV` read as a float gives that literal |
| Soup.FloatCellValue | src/arris_stats.py:325 | a float column that converts read an existing cell whose bare text is a float literal, and holds that literal |
| Soup.IntCell | src/arris_stats.py:327 | a plain digit cell read as an int gives its value |
| Soup.ChannelRow | src/arris_stats_sb6183.py:27-64 | a row is skipped exactly when it has a `th` or its stripped first cell is not all digits; a row with no cells raises IndexError; a kept row is `channel_id` followed by the converted columns |
| Soup.ScanStep | src/arris_stats_sb6183.py:27-64 | one pass of the loop: a skipped row adds nothing, a kept row adds its record, and a failing row ends the loop with its fault |
| Soup.ScanAppend | src/arris_stats_sb6183.py:27-64 | scanning `a + b` is scanning `a`, then `b`: row order is kept |
| Soup.ScanOkIff | src/arris_stats_sb6183.py:27-64 | the loop completes exactly when no row raises |
| Soup.ScanFault | src/arris_stats_sb6183.py:27-64 | a loop that raised, raised at one of its rows |
| Soup.ScanLength | src/arris_stats_sb6183.py:27-64 | a completed loop yields one record per kept row, so never more records than rows |
| Soup.ScanKeepsKeptRows | src/arris_stats_sb6183.py:27-64 | every kept row's record is in the output |
| Soup.ScanOnlyKeptRows | src/arris_stats_sb6183.py:27-64 | every output record is the record of some kept row |
| Soup.ScanNothingKept | src/arris_stats_sb6183.py:66-68 | a table with no qualifying rows yields an empty list, not a fault |
| Soup.ScanPosition | src/arris_stats_sb6183.py:57-64 | the record of kept row j sits right after the records of the kept rows before it |
| Soup.ScanKeepsOrder | src/arris_stats_sb6183.py:57-64 | of two kept rows, the earlier one's record comes first in the output |
| Soup.ScanHeaderThenRow | src/arris_stats_sb6183.py:28-49 | a skipped header and then a kept row give exactly that row's record |
| Sb8200.DownstreamRow | src/arris_stats.py:312-337 | a row is skipped exactly when it has a `th` or a non-digit first cell; a kept row holds `channel_id` as an int, then the converted cells 3-7 |
| Sb8200.ScanDownstream | src/arris_stats.py:311-337 | the downstream loop gives the records of the row scan and leaves `channel_id` as the last non-header row set it |
| Sb8200.ScanUpstream | src/arris_stats.py:344-362 | the upstream loop, which starts from the stale `channel_id`, gives the result of the upstream scan |
| Sb8200.ParseHtml | src/arris_stats.py:292-368 | `parse_html_sb8200` is the document parse of the repaired page |
| Sb8200.RepairLength | src/arris_stats.py:301 | the repair rewrites min(2, count) occurrences, each five characters shorter |
| Sb8200.RepairFirstTwo | src/arris_stats.py:301 | the repair fixes the first two broken fragments and leaves the page before, between and after them untouched, later fragments included |
| Sb8200.RepairOnlyOne | src/arris_stats.py:301 | a page with one broken fragment gets exactly that fragment fixed and nothing else changed |
| Sb8200.RepairAbsent | src/arris_stats.py:301 | a page without the broken fragment is left unchanged |
| Sb8200.RepairAtMostTwo | src/arris_stats.py:301 | with at most two broken fragments, every one of them is repaired |
| Sb8200.UpScanUnusable | src/arris_stats.py:351 | once `channel_id` is None or an int, the loop completes only on header rows, and any data row raises AttributeError |
| Sb8200.UpScanStaleText | src/arris_stats.py:349-352 | a stale non-digit `channel_id` makes the upstream loop skip every row |
| Sb8200.UpScanAtMostOne | src/arris_stats.py:345-362 | a completed upstream loop has at most one record |
| Sb8200.StaleGuardDropsUpstream | src/arris_stats.py:311-352 | when the last non-header downstream row has a non-digit first cell, the upstream list is empty whatever the upstream table holds |
| Sb8200.AtMostOneUpstream | src/arris_stats.py:345-362 | every completed parse has at most one upstream channel |
| Sb8200.DownstreamCells | src/arris_stats.py:324-328 | cells `<f> Hz`, `<p> dBmV`, `<s> dB`, `<c>`, `<u>` convert to the numbers they show |
| Sb8200.OneDownstreamRow | src/arris_stats.py:312-337 | a well-formed data row is kept with exactly those six entries, in order |
| Sb8200Script.ScanDownstream | script/arris_stats.py:173-197 | the downstream loop gives the records of the row scan and leaves `channel_id` as the last non-header row set it |
| Sb8200Script.ScanUpstream | script/arris_stats.py:204-221 | the upstream loop gives the result of the upstream scan from the stale `channel_id` |
| Sb8200Script.ParseHtml | script/arris_stats.py:157-227 | the older `parse_html_sb8200` is the document parse of the repaired page |
| Sb8200Script.TextColumnsFault | script/arris_stats.py:184-188 | text columns fail only on a missing cell (IndexError) |
| Sb8200Script.TextRecord | script/arris_stats.py:184-197 | text columns give str values only |
| Sb8200Script.DownstreamRecordIsText | script/arris_stats.py:178-197 | every value of a kept downstream record is a str |
| Sb8200Script.DownstreamRowFault | script/arris_stats.py:178-188 | a downstream row raises only IndexError |
| Sb8200Script.UpScanWithFault | script/arris_stats.py:205-215 | the upstream loop raises only NameError, for a `channel_id` never bound, or IndexError |
| Sb8200Script.ParseFault | script/arris_stats.py:157-227 | a failed parse is a missing table or cell, or a read of `channel_id` before it was bound |
| Sb8200Script.ReadableStep | script/arris_stats.py:205-221 | after a digit `channel_id`, a readable row is kept, and its own channel guards the next row |
| Sb8200Script.UpScanWithKeepsReadableRows | script/arris_stats.py:205-221 | after a digit `channel_id`, a table of readable rows yields one record per row, in order |
| Sb8200Script.UpScanKeepsReadableRows | script/arris_stats.py:205-221 | upstream rows with the seven cells the loop reads and a channel number in cell 1 all appear, in order |
| Sb6183.ParseHtml | src/arris_stats_sb6183.py:13-107 | `parse_html_sb6183` is the document parse of the page |
| Sb6183.ScanDownstream | src/arris_stats_sb6183.py:27-68 | the downstream loop computes exactly the row scan with the downstream columns |
| Sb6183.ScanUpstream | src/arris_stats_sb6183.py:71-101 | the upstream loop computes exactly the row scan with the upstream columns |
| Sb6183.ParseReadsTwoTables | src/arris_stats_sb6183.py:27-71 | only the third and fourth tables determine the result |
| Sb6183.ShortPageFails | src/arris_stats_sb6183.py:71 | a page with fewer than four tables raises, with IndexError unless the downstream loop raised first |
| Sb6183.HeaderOnlyTableIsEmpty | src/arris_stats_sb6183.py:66-68 | a table with only header rows gives an empty list in either direction |
| Sb6183.FrequencyCell | src/arris_stats_sb6183.py:51 | a frequency cell `<digits> Hz` gives that number of hertz |
| Sb6183.ParseParts | src/arris_stats_sb6183.py:13-107 | a successful parse read both tables, and its lists are those of the two loops |
| Sb6183.DownstreamRowsAppear | src/arris_stats_sb6183.py:27-64 | every kept downstream row appears in the parse, and every downstream record comes from a kept row |
| Sb6183.UpstreamRowsAppear | src/arris_stats_sb6183.py:71-101 | the same for the upstream table |
| T25.DownstreamRow | src/arris_stats_t25.py:48-75 | a row is skipped exactly on "power" in its markup, a `th`, or a non-digit channel once "Downstream" is removed; a kept row carries the scaled frequency |
| T25.DownstreamKeep | src/arris_stats_t25.py:56-75 | a data row whose columns convert is kept, with its frequency passed through the scaling |
| T25.ParseHtml | src/arris_stats_t25.py:39-108 | `parse_html_t25` is the document parse of the page |
| T25.ScanDownstream | src/arris_stats_t25.py:48-75 | the downstream loop computes exactly the row scan with the scaled-frequency downstream rule |
| T25.ScanUpstream | src/arris_stats_t25.py:84-102 | the upstream loop computes exactly the row scan with the upstream rule |
| T25.ParseReadsTables | src/arris_stats_t25.py:48-84 | only the first and fifth tables determine the result |
| T25.PowerRowSkipped | src/arris_stats_t25.py:49-50 | a row whose markup spells "power" in any case is skipped |
| T25.ChannelLabelRemoved | src/arris_stats_t25.py:56-59 | "Downstream 5" and "Upstream 5" both give channel "5" |
| T25.ParseParts | src/arris_stats_t25.py:39-108 | a successful parse read both tables, and its lists are those of the two loops |
| T25.FrequencyScaledDownstreamOnly | src/arris_stats_t25.py:62-94 | every downstream frequency is the scaled MHz text of its row, and every upstream frequency is the unscaled MHz text |
| T25.UpstreamFrequencyUnscaled | src/arris_stats_t25.py:93-95 | an upstream record holds symbol rate, frequency and power as the cells show them, minus their units |
| T25.DownstreamRowsAppear | src/arris_stats_t25.py:48-75 | two kept downstream rows appear in the parse in row order |
| T25.NextUrl | src/arris_stats_t25.py:19 | the next hop exists exactly when the refresh content has a second ';' part, and raises IndexError otherwise |
| T25.NextUrlOfRefresh | src/arris_stats_t25.py:19 | a refresh `<delay>;url=<target>` from a page under `<dir>/` leads to `<dir>/<target>` |
| T25.Visit | src/arris_stats_t25.py:11-21 | one hop raises only a request error, an HTTP error status, a KeyError or an IndexError; it lands exactly on a fetched page with no error status and no refresh, and lands on that page's URL |
| T25.WalkFaults | src/arris_stats_t25.py:11-21 | a failed recursion ran out of stack room or raised what one of its hops raised |
| T25.WalkLands | src/arris_stats_t25.py:11-21 | a successful recursion returns the URL of a hop that landed |
| T25.WalkDeeper | src/arris_stats_t25.py:11-21 | a recursion that ended is unchanged by more stack room |
| T25.FollowRedirect | src/arris_stats_t25.py:10-23 | a walk without stack room raises RecursionError |
| T25.FollowRedirectFaults | src/arris_stats_t25.py:10-23 | the walk raises only RecursionError, a request error, a KeyError, an IndexError or an HTTP error status |
| T25.FollowRedirectLands | src/arris_stats_t25.py:15-21 | a successful walk ends on a page without a refresh and returns the URL that page was served from |
| T25.FollowRedirectDeeper | src/arris_stats_t25.py:11-21 | more stack room does not change a walk that already ended |
| T25.GetToken | src/arris_stats_t25.py:26-36 | the token is returned exactly when the walk succeeds and the login post is not an error status, and it is always "token_in_session" |
| Http.Credential | src/arris_stats.py:210-252 | an auth URL that cannot be built raises; otherwise the answer is a credential exactly when the request got status 200 and no login page, and that credential is the reply's text |
| Http.StatusPage | src/arris_stats.py:269-289 | a page exists exactly when the reply has status 200, UTF-8 content and no "Password:", and it is that content |
| Http.Html | src/arris_stats.py:255-289 | the credential cookie is sent exactly when the modem requires authentication |
| Http.HtmlIgnoresCredential | src/arris_stats.py:262-265 | without authentication, the page fetched does not depend on the credential held |
| Http.HtmlIsStatusPage | src/arris_stats.py:283-289 | a fetched page is never the login page, and is the decoded body unchanged |
| Http.Session.constructor | script/arris_stats.py:98-100 | a new session has the given `verify`, no auth pair and no cookies |
| Http.SessionCookies | script/arris_stats.py:106-123 | without authentication there are no cookies; with it, the only cookie is `credential`, holding the auth reply's text |
| Http.StartSession | script/arris_stats.py:93-125 | `start_session` fails exactly when the cookies cannot be obtained; otherwise the fresh session carries those cookies and, with authentication, the auth pair |
| Http.ScriptHtml | script/arris_stats.py:128-154 | the older `get_html` classifies the reply to the session's cookies like the status-page rule |
| Http.SessionKeepsErrorReply | script/arris_stats.py:117-123 | the credential cookie holds the auth reply's text even when that reply is an error page |
| Config.ParserFor | src/arris_stats.py:199-205 | a parser exists exactly for a supported model |
| Config.StrToBool | src/arris_stats.py:661-668 | accepts exactly "true" and "false" in any case, gives true exactly for "true", and raises ValueError otherwise |
| Config.StrToBoolAnyCase | src/arris_stats.py:663-666 | every case variant of "true" or "false" gives that value |
| Config.Coerce | src/arris_stats.py:184-196 | a str becomes a bool through `str_to_bool` or an int through `int()` by the kind of the default; "None" becomes None where the default is None; other values stay |
| Config.MergedModel | src/arris_stats.py:175-181 | the model the supported-model check sees is always a str |
| Config.ConfigOf | src/arris_stats.py:162-200 | the config loads exactly when every value coerces and the model is supported, and holds each coerced value; a bad first parameter wins over an unsupported model, which wins over later bad parameters |
| Config.Load | src/arris_stats.py:162-200 | the three loops of `get_config` give the `ConfigOf` result |
| Config.MergeFile | src/arris_stats.py:175-176 | the file loop sets every parameter to its file value, or keeps the default where the file lacks it |
| Config.MergeEnv | src/arris_stats.py:179-181 | the environment loop overrides each parameter with a non-empty environment value and keeps the rest |
| Config.CoerceAll | src/arris_stats.py:184-200 | the coercion loop gives the `ConfigOf` result of the merged values, raising at the first bad value or at an unsupported model |
| Config.GetConfig | src/arris_stats.py:124-207 | `get_config` over the shipped defaults gives the `ConfigOf` result |
| Config.EnvironmentWins | src/arris_stats.py:179-181 | a non-empty environment value wins over the file and the default; an empty one is ignored |
| Config.DefaultCoercesToItself | src/arris_stats.py:184-196 | every default survives its own coercion |
| Config.NoOverridesGiveDefaults | src/arris_stats.py:162-200 | with no file and no environment, the config is the defaults |
| Config.DefaultConfigLoads | src/arris_stats.py:129-200 | the shipped defaults load unchanged |
| Config.LoadedModelIsSupported | src/arris_stats.py:198-205 | a config that loads names a supported model, whose parser exists |
| Config.UnsupportedModelRaises | src/arris_stats.py:198-200 | an unsupported model from the environment raises with that model's name |
| Config.NoneText | src/arris_stats.py:194-196 | "None" becomes None where the default is None, and stays the text "None" where the default is a str |
| Poller.ErrorExit | src/arris_stats.py:639-645 | `error_exit` exits with status 1, after one sleep of `sleep_interval` exactly when `sleep_before_exit`; a negative interval makes that sleep raise ValueError instead of exiting |
| Poller.ObtainCredential | src/arris_stats.py:77-84 | the auth loop either ends the run with the events of `RunAuth`, or leaves with a non-empty credential, after which the run goes on with the fetch |
| Poller.HandlePage | src/arris_stats.py:86-112 | the rest of a cycle after `get_html` produces the events `AfterFetch` gives, and either ends the run or hands the credential to the next cycle |
| Poller.Poll | src/arris_stats.py:67-112 | `main`'s loop produces exactly the trace `RunTop` gives from the first cycle without a credential, a negative sleep raising ValueError |
| Poller.CycleStart | src/arris_stats.py:69-75 | the first cycle starts with an auth attempt or a fetch, never a sleep; every later cycle starts with a sleep of `sleep_interval`, and with a negative interval that sleep raises ValueError and ends the run |
| Poller.MainPolicies | src/arris_stats.py:70-112 | in every run, no empty snapshot is sent, everything goes to the configured sink, an exit or a crash is last, every sleep is of the non-negative `sleep_interval`, and with auth required every fetch carries a non-empty credential |
| Poller.ExitAfterOneFailedAuth | src/arris_stats.py:77-81 | with `exit_on_auth_error`, one failed attempt is followed by `error_exit` and nothing else |
| Poller.RetryUntilCredential | src/arris_stats.py:77-84 | without `exit_on_auth_error`, each failed attempt sleeps once and retries, until the credential returned is used for the fetch; with a negative interval the first retry's sleep raises ValueError |
| Poller.FailedFetchSkipsCycle | src/arris_stats.py:86-95 | a failed fetch parses and sends nothing; the next cycle sleeps first (raising ValueError for a negative interval) and holds the credential unless `clear_auth_token_on_html_error` dropped it |
| Poller.FailedFetchExits | src/arris_stats.py:88-90 | a failed fetch with `exit_on_html_error` runs `error_exit` |
| Poller.UnknownDestinationExits | src/arris_stats.py:106-112 | a snapshot for an unsupported destination exits with status 1 at once, without the sleep |
| Poller.EmptySnapshotSkipped | src/arris_stats.py:101-104 | an empty snapshot ends the cycle with the credential kept, and the next cycle starts with a sleep (raising ValueError for a negative interval) |
| ScriptPoller.Poll | script/arris_stats.py:35-65 | the script's loop produces exactly the trace `Run` gives from the first cycle, a negative sleep raising ValueError |
| ScriptPoller.PollPolicies | script/arris_stats.py:35-65 | only non-empty sb8200 snapshots are sent, and only to `influxdb`; every exit has status 1 and is last; a sleep is always of the non-negative `sleep_interval` and followed by a fetch |
| ScriptPoller.UnsupportedModelExits | script/arris_stats.py:49-54 | a model other than sb8200 exits with status 1 at the first page, after cycles that only sleep and fetch; a negative interval raises ValueError at the first sleep instead |
| ScriptPoller.FailedFetchSkipsCycle | script/arris_stats.py:43-47 | a failed fetch skips to the next cycle, which sleeps first (raising ValueError for a negative interval) |
| ScriptPoller.NegativeIntervalCrashes | script/arris_stats.py:36-40 | with a negative `sleep_interval`, the first sleep raises ValueError and ends the run |
| Influx.FieldValue | src/arris_stats_influx1.py:43-46 | src/arris_stats.py copies the value; the modules raise TypeError on a non-str, and otherwise parse a float exactly when the text holds '.' and an int when it does not |
| Influx.FieldsMeaning | src/arris_stats_influx1.py:40-46 | the fields are every entry but `channel_id`, in order, each converted, and they exist exactly when every such value converts |
| Influx.ChannelTag | src/arris_stats_influx1.py:36-38 | the tag exists exactly when `channel_id` is present and `int()` of it succeeds, and is that int |
| Influx.PointOf | src/arris_stats_influx1.py:32-47 | a point exists exactly when the tag and the fields do; the tag's error comes first; the point holds measurement, time, tag and fields |
| Influx.Series | src/arris_stats_influx1.py:28-65 | the series exists exactly when both directions' points do, and a downstream error wins |
| Influx.BuildFields | src/arris_stats_influx1.py:40-46 | the inner loop computes exactly `Fields` |
| Influx.AppendPoints | src/arris_stats_influx1.py:31-47 | one outer loop appends exactly that direction's points, or raises the first row's error |
| Influx.BuildSeries | src/arris_stats_influx1.py:28-65 | the two outer loops compute exactly `Series` |
| Influx.PointsShape | src/arris_stats_influx1.py:31-47 | one point per row, in row order, each the point of its row |
| Influx.SeriesShape | src/arris_stats_influx1.py:31-65 | the series is the downstream points followed by the upstream points, with one point per row |
| Influx.SeriesSharesTime | src/arris_stats_influx1.py:29-54 | all points carry the one timestamp taken before the loops |
| Influx.NoChannelField | src/arris_stats_influx1.py:40-42 | `channel_id` is never a field |
| Influx.TagIsChannel | src/arris_stats_influx1.py:36-38 | the tag is `int()` of the row's `channel_id`, which the row has |
| Influx.CopiedFields | src/arris_stats.py:500-503 | src/arris_stats.py's fields are the record without `channel_id`, values unchanged |
| Influx.DotDecidesKind | src/arris_stats_influx1.py:43-46 | every field is a float exactly when its source text holds '.', and an int exactly when it does not |
| Influx.WriteRetrying404 | src/arris_stats_influx1.py:67-80 | delivered exactly when the first write succeeds, or it fails with 404 and the create and the retry succeed; dropped exactly on another listed error; every write is of the whole series; the create happens exactly on a 404 |
| Influx.WriteOnce | src/arris_stats_influx2.py:69-81 | one write, no retry; any listed error drops the series; the client is closed only on success |
| Influx.Send | src/arris_stats_influx.py:14-95 | each sink builds its series by its field rule, raises when the series cannot be built, and applies its own write policy |
| Influx.RetryDiffers | src/arris_stats_influx2.py:69-75 | on a 404 followed by success, influx2 drops the series while influx1 and the bucket module create and deliver |
| Influx.NumberField | script/arris_stats.py:256-260 | `int(record[key])` or `float(record[key])` exists exactly when the key is present and converts, and has the requested kind |
| Influx.ScriptDownstreamPoint | script/arris_stats.py:250-265 | the older script's downstream point exists exactly when its five fields and then the tag convert, and has five fields |
| Influx.ScriptUpstreamPoint | script/arris_stats.py:267-278 | the upstream point exists exactly when frequency, power and the tag convert, and has two fields |
| Influx.ScriptFieldKinds | script/arris_stats.py:255-274 | the named fields are, in order, frequency (int), power (float), snr (float), corrected (int), uncorrectables (int), and upstream frequency (int), power (float) |
| Influx.AppendScriptPoints | script/arris_stats.py:250-278 | one of the script's loops appends exactly that direction's points, or raises the first row's error |
| Influx.BuildScriptSeries | script/arris_stats.py:247-278 | the script's two loops compute exactly `ScriptSeries` |
| Influx.ScriptSeriesShape | script/arris_stats.py:250-278 | one point per downstream row with five fields, then one per upstream row with two |
| Influx.ScriptSend | script/arris_stats.py:280-296 | the evidently intended `send_to_influx`: a row that does not convert raises before any call; otherwise the series is written first, the database is created only after a 404, the send delivers exactly when the write or the write retried after the 404 succeeds, drops exactly on another caught error, and never closes the client |
| Config.ScriptConfigKeys | script/arris_stats.py:76-88 | the older `get_config`'s dict holds every option name of `MAIN` lower-cased, and the two flags it adds |
| Influx.ScriptSendAsWritten | script/arris_stats.py:232 | `send_to_influx` as written raises before any client call, KeyError exactly when the config has no `INFLUXDB` key |
| Influx.ScriptSendRaisesKeyError | script/arris_stats.py:232 | with every config the older script loads, `send_to_influx` raises KeyError for every snapshot, while the intended write delivers a buildable series the database accepts |
| Timestream.MeasureOf | src/arris_stats_aws_timestream.py:58-66 | a record is `DOUBLE` exactly when its value is a float; it carries the key, `str()` of the value and of the channel, and the group |
| Timestream.EntryMeasuresMeaning | src/arris_stats_aws_timestream.py:54-66 | one record per entry other than `channel_id`, in order; they exist exactly when there is no such entry or the row has `channel_id`, and the only error is KeyError |
| Timestream.RowMeasuresMeaning | src/arris_stats_aws_timestream.py:52-66 | a row's records: one per measure, named by its key, `DOUBLE` exactly for a float, with `str()` of the value |
| Timestream.RecordCount | src/arris_stats_aws_timestream.py:52-66 | the records exist exactly when every row's do, and their number is the sum over the rows of their keys other than `channel_id` |
| Timestream.RecordsSnoc | src/arris_stats_aws_timestream.py:52-66 | one more row: the records exist exactly when the earlier rows' and the new row's do, and their number grows by the new row's measures |
| Timestream.AppendRowMeasures | src/arris_stats_aws_timestream.py:54-66 | the inner loop appends exactly the row's records, or raises its KeyError |
| Timestream.BuildRecords | src/arris_stats_aws_timestream.py:52-66 | the nested loops compute exactly `Records` |
| Timestream.SendToTimestream | src/arris_stats_aws_timestream.py:12-112 | the function makes the calls and ends as `Send` says |
| Timestream.DescribeFailureWritesNothing | src/arris_stats_aws_timestream.py:27-42 | a failed describe returns and nothing is written |
| Timestream.DownstreamFailureIgnored | src/arris_stats_aws_timestream.py:68-77 | the answer to the downstream write changes nothing that follows |
| Timestream.BothDirectionsWritten | src/arris_stats_aws_timestream.py:68-110 | after both describes, both directions are written, downstream first, with the same time; success is reported exactly when the upstream write succeeds |
| Timestream.UpstreamKeyErrorAfterDownstreamWrite | src/arris_stats_aws_timestream.py:68-98 | an upstream row without `channel_id` raises KeyError after the downstream write |
| Timestream.RecordsFailureIsKeyError | src/arris_stats_aws_timestream.py:60 | the only error building records raises is KeyError |
| Timestream.BuiltinLabelsUpstreamAsDownstream | src/arris_stats.py:604-608 | src/arris_stats.py labels the upstream write `downstream_statistics` and sets no group; the module uses `upstream_statistics` and a group |
| Timestream.ModuleNeverWrites | src/arris_stats_aws_timestream.py:7-44 | as written, the module never writes a record, and raises NameError whenever both describes succeed |
| Timestream.ModuleWritesWithClock | src/arris_stats_aws_timestream.py:44-112 | with the clock read, every call succeeding and every row carrying `channel_id`, the module writes both directions, labels upstream `upstream_statistics` and reports success |

## Left out

- HTTP I/O is left out: `requests`, sessions, TLS and `urllib3.disable_warnings`. Each request is an oracle argument, and only its outcome is modelled: an exception, or a status with its text and UTF-8 content.
- BeautifulSoup is left out. A page is an abstract document of tables, rows and cells, given by a `soup` argument, and an index out of range is an IndexError result.
- Float semantics are left out. A float is kept as the literal it was parsed from. Two conversions are oracle arguments: t25's `str(float(x) * 1000000)` and `str()` of a float for Timestream. `int()` of a float takes the digits of its literal before the '.'.
- Stats.FloatField: `float()` is modelled on the literals an optional sign followed by ASCII digits with at most one '.' and at least one digit, after stripping. The exponent forms (`1e5`), `inf`, `infinity`, `nan`, underscores between digits and non-ASCII digits, which Python also accepts, are modelled as ValueError. The modems' pages carry plain decimals.
- Text.Lower: `lower()` is modelled on ASCII letters only; other characters are kept.
- `isdigit` and `int()` cover ASCII decimal text only: an optional sign, digits, and surrounding whitespace for `int()`. Unicode digits and underscores are not modelled.
- Process effects are events of a trace: `time.sleep`, `sys.exit`, logging, `sys.stdout.flush` and exceptions escaping `main`. `init_logger`, `get_args`, `write_html` and `read_html` are plumbing and are left out.
- The config file and `os.environ` are input maps. `configparser` itself is not modelled.
- The sink clients are left out: InfluxDBClient, the influxdb_client write and bucket APIs, and boto3. Each client call is the k-th answer of an `answer` argument. The model covers the series or records handed over, the calls in order, and what the function does with each answer.
- Influx.WriteRetrying404: a packaged client's own retries and timeouts are not modelled. A retried write that raises again escapes as `Raised`, as in the source.
- src/arris_stats_splunk.py is left out. It only hands the snapshot to a logging handler.
- The dynamic `__import__`/`getattr` lookup is the static registry `Config.ParserFor` over `modems_supported`.
- Poller.Poll: `main` never returns. The trace ends when the answer sequences run out, so every statement is about finite prefixes of the run.
- ScriptPoller.Poll: `start_session` runs before the loop, and its failure is modelled by `Http.StartSession`. The loop's `get_html` answers are the `pages` input, so the session is not threaded through the trace.
- Poller.Poll: `get_config` runs before the loop and is modelled by `Config.GetConfig`. `Settings` holds the values `main` reads from it.
- The older script's `get_config` is modelled only by the keys of the dict it returns (`Config.ScriptConfigKeys`). Its values are a plain `configparser` read with two `getboolean` calls.
- Records are assumed to hold distinct keys, as Python dicts do. A lookup takes the first entry with the key.
- The t25 `follow_redirect` recursion is bounded by a `depth` argument standing for the interpreter's recursion limit. Running out is a RecursionError.
- tests/test_arris_stats.py is left out. It calls `get_default_config`, which this revision of src/arris_stats.py does not define.
- Timestream.Send: a config of None for the database or table name is not distinguished. boto3 rejects it inside the `try`, so it is one of the failing describe answers.
- The MHz value of t25 is checked to be a float literal before the oracle `scale` rescales it. The scaled text itself is not modelled.

## Findings

| source | as written | input that shows it | evidently intended | confidence | as-written member | corrected member |
|---|---|---|---|---|---|---|
| src/arris_stats_aws_timestream.py:44 | `time.time_ns()` is called, but the module never imports `time` | any call where the database and the table exist: both describes succeed, then NameError is raised before any record is built | read the nanosecond clock, as src/arris_stats.py:570 does with `import time` at its line 11, and write both directions | high (not executed) | Timestream.ModuleNeverWrites | Timestream.ModuleWritesWithClock |
| script/arris_stats.py:232 | `send_to_influx` reads `config['INFLUXDB']['host']`, but `config` is the dict of `MAIN` that the script's `get_config` returns, whose keys are lower-cased option names and two flags | any run that reaches a non-empty sb8200 snapshot with destination `influxdb`: KeyError escapes `main` before the client is made | read the `INFLUXDB` section of the config file and write the series with the 404 create-and-retry policy | high (not executed) | Influx.ScriptSendRaisesKeyError | Influx.ScriptSend |
