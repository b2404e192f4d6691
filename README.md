# Paginated FDIC API client — verified model of the collector

This project models the core of `RequestWrapper` (request_wrapper.py), a small
client for the FDIC public data API. The client fetches a collection page by
page, using offsets. It accumulates the records and then writes them out as
JSON, or as a CSV table that the `"df"` format also returns.

The model has five modules:

- `Transport`: a response is usable exactly when its status is 200
  (`handle_response_errors`). `make_request` gives back the decoded page, or
  no content (`None`) for any other status. The HTTP call itself is not
  modelled: each response is an input value.
- `Pagination`: the `while True` loop of `request_data` as a specification
  function, `Paginate`. The server is a finite script of responses, and
  request k gets answer k. The lemmas state what the loop guarantees:
  - the offset sent with request k is the number of records in answers
    0..k-1;
  - the loop goes on only while the answer is usable and the accumulator is
    below the page's `meta.total`;
  - an unusable answer stops the loop at once, keeping exactly the earlier
    records;
  - a normal stop leaves at least `total` records, in page order;
  - when every usable page is non-empty and reports the same total, and the
    server has at least that total less the records already held answers,
    the loop finishes; an empty page below the total stalls it.
- `Fields`: `str.split(",")` and its inverse `join`, with the round trip in
  both directions and the piece count (commas + 1).
- `Output`: the branch on `format` after the loop. `"json"` dumps the
  accumulator. `"csv"` and `"df"` build a table: the columns are the field
  list split on commas plus `"ID"`, and the rows are each record's `data`
  payload. Only `"df"` returns the table.
- `Collector`: `Params`, the caller's parameter dictionary, is a class that
  the loop updates in place with `dict.update`. `RequestWrapper.Fetch` is the
  imperative loop (a `while true` with the source's two `break`s), proved
  equal to `Collect`. `RequestWrapper.RequestData` is the whole method. Every
  request goes to `baseUrl + endpoint`, with the caller's parameters and
  `offset` set to the running offset. After the call, every other key of the
  caller's dictionary is unchanged.

Two points about the code that the model makes explicit:

- After the loop, the `"csv"` / `"df"` path reads `response["meta"]` at
  request_wrapper.py:69. After any failed request, not only the first,
  `response` is `None` there and the source raises a `TypeError`, so nothing
  is written. The model returns the outcome `MissingMetadata` in that case.
  The `"json"` path writes the records gathered before the failure.
- `pd.DataFrame` is given the payload dictionaries and picks their values by
  column name. The model keeps the payload rows and the column list as they
  are, and does not decide how a table library matches them.

## Model

| member | source | states |
|---|---|---|
| Transport.HandleResponseErrors | request_wrapper.py:24-30 | a response is usable if and only if its status code is 200; every other status (below or above) is rejected |
| Transport.MakeRequest | request_wrapper.py:13-22 | yields no content exactly when the status check rejects the response, and otherwise the decoded page itself |
| Fields.Split | request_wrapper.py:69 | splitting the field list always yields at least one piece (an empty string splits to one empty name) |
| Fields.SplitLength | request_wrapper.py:69 | the number of field names is the number of commas plus one |
| Fields.SplitPiecesFree | request_wrapper.py:69 | no field name contains a comma |
| Fields.JoinSplit | request_wrapper.py:69 | joining the split field names with commas gives back the original `fields` string |
| Fields.SplitJoin | request_wrapper.py:69 | splitting a comma-join of comma-free names gives back exactly those names, in order |
| Output.Columns | request_wrapper.py:69-70 | the columns are the split field list in order followed by "ID"; their number is the number of commas plus two |
| Output.WriteOutput | request_wrapper.py:59-79 | "json" writes the whole accumulator to ./data/<name>.json and returns nothing; "csv"/"df" write ./data/<name>.csv whose columns come from the last page and whose rows are the records' payloads in accumulator order (same count); only "df" returns the table; any other format writes and returns nothing; the tabular path has no metadata when the loop ended on a failed request |
| Pagination.Paginate | request_wrapper.py:32-57 | the loop from a given accumulator and offset: the accumulator only grows (what it held before is a prefix of what it holds after); at most one request per answer, and at least one when the loop ends on its own; `response` holds a page after the loop exactly when the loop ended by reaching the total |
| Pagination.RecordsSnoc | request_wrapper.py:45 | `data.extend` of one more page appends that page's records to the accumulator, so the accumulator after n requests is the records of the first n answers in order |
| Pagination.PaginateExhausted | request_wrapper.py:37-57 | a finite stretch of the loop that has not stopped yet: when the server's answers run out first, every answer was requested, `response` holds no page, and the accumulator is all their records in order |
| Pagination.PaginateOffsets | request_wrapper.py:34-57 | the offset sent with request i is the starting offset plus the number of records in answers 0..i-1 (0 for the first request of a call), not i times a page size; no more requests are made than answers exist |
| Pagination.PaginateContinues | request_wrapper.py:42-57 | every request except the last got a status-200 page, and after adding that page's records the accumulator was still below the page's total |
| Pagination.PaginateFailed | request_wrapper.py:40-43 | when the loop stops on a non-200 answer, that answer is the last request, `response` is None and the accumulator is exactly the records of the answers before it |
| Pagination.PaginateReached | request_wrapper.py:45-55 | when the loop stops on reaching the total, the last answer was usable, `response` is that page, the accumulator is the in-order concatenation of all pages received and holds at least that page's total of records |
| Pagination.PaginateProgress | request_wrapper.py:54-57 | when every usable page is non-empty and reports the same total, the loop finishes within that many requests |
| Pagination.PaginateStall | request_wrapper.py:57 | a usable empty page below the total leaves the offset unchanged, so a server repeating it is asked again at the same offset indefinitely and the loop never finishes |
| Pagination.PaginateComplete | request_wrapper.py:37-55 | when non-empty pages sharing one total together hold exactly that total, every page is requested, the loop stops on reaching the total, and the accumulator is all records in page order, exactly `total` long |
| Collector.RequestsAt | request_wrapper.py:39-40 | request i of a run carries the caller's parameters with `offset` set to the i-th offset and nothing else changed |
| Collector.OffsetOnly | request_wrapper.py:39 | writing `offset` into the caller's dictionary leaves every other key and value as it was |
| Collector.Params.Update | request_wrapper.py:39 | `dict.update` sets the given keys and keeps every other entry |
| Collector.RequestWrapper.constructor | request_wrapper.py:10-11 | the wrapper keeps the base URL it was given, by default the FDIC API address |
| Collector.RequestWrapper.Fetch | request_wrapper.py:32-57 | the imperative loop returns the accumulator and last response of `Collect` (`Paginate` from an empty accumulator and offset 0); at the head of each iteration the accumulator is the records of the answers so far and the offset is its length; it sends one request per offset of the run, each to base URL + endpoint with the caller's parameters and that offset; it leaves the caller's dictionary with `offset` at the value last sent |
| Collector.RequestWrapper.RequestData | request_wrapper.py:32-79 | the loop followed by the format branch, with `format` defaulting to "json" and the output name to "output": the outcome is `WriteOutput` of the run's accumulator and last response; the requests are as in `Fetch`; the caller's dictionary keeps every key other than `offset` with its value |

## Left out

- `requests.get` and the network are not modelled. Each answer is a value
  holding a status code and a decoded body, and the requests made are returned
  as a log. The URL is only the concatenation of the base URL and the endpoint.
- Decoding with `response.json()`, `json.dump` and the files under `./data` are
  not modelled. The written file is modelled as a value: its path and its
  contents.
- `pd.DataFrame` and `to_csv` are not modelled. The table is the column list
  plus the payload rows. How pandas matches payload keys to columns is not
  modelled, nor its filling of missing values.
- `os.makedirs("./data", exist_ok=True)` is a filesystem side effect. Its
  idempotence is not modelled.
- The `print` diagnostics on a non-200 status (the status code and the body
  text) are console output only.
- Malformed pages are not modelled: every page has `data`, `meta.total` and
  `meta.parameters.fields`, and every record has a `data` payload. In the
  source a usable page without `data` (line 45) or without `meta.total`
  (line 48) raises a `KeyError` inside the loop, on any format. Only the last
  page's `meta.parameters.fields` is read, and only on the `"csv"` / `"df"`
  path (line 69); a record without a `data` key raises on that path only
  (line 72).
- Collector.RequestWrapper.RequestData: it requires that the scripted server
  does not run out of answers before the loop stops. The source would keep
  sending requests. With a server that keeps returning an empty page below the
  total, it would send them forever (see `PaginateStall`). `PaginateProgress`
  gives a sufficient condition for the requirement.
- Collector.RequestWrapper.Fetch: the same requirement as `RequestData`.
- Output.WriteOutput: on the tabular path after a failed request, the source
  raises a `TypeError`. The model returns the distinct outcome
  `MissingMetadata` instead.
- Query-parameter values are integers or strings. Other JSON-encodable values
  are not modelled.
- The `params=None` default of `make_request` is not modelled, because
  `request_data` always passes the dictionary.
