# vnStat traffic endpoint: the response shaper

This project models the decision logic of `get_vnstat_data` in `app.py`.
That function backs `GET /api/traffic`. It runs `vnstat --json` once and
turns the outcome into exactly one of three single-key payloads:

- `{"error": …}` when the tool exits non-zero. The text is the stripped
  standard error. A fixed hint about needing vnStat 2.x with `--json`
  support is appended when that text contains `unrecognized option` or
  `invalid option`.
- `{"error": …}` with a fixed "no monitored interfaces" text, when the
  parsed document has no `interfaces` key or an empty list.
- `{"message": …}` with a fixed text, when interfaces exist but none has
  traffic.
- `{"interfaces": […]}` otherwise. The list holds the interfaces that have
  traffic, unchanged and in input order.

An interface has traffic when `traffic.total.rx > 0` or
`traffic.total.tx > 0`. Failing that, the `traffic.day` list is scanned and
the scan stops at the first day with `rx > 0` or `tx > 0`. A missing
`traffic`, `total`, `day`, `rx` or `tx` reads as `{}`, `[]` or `0`.

Files and modules:

- `text.dfy`, module `Text`: Python's `str.strip()` (with Python's
  whitespace set) and the substring test `sub in s`. Each carries a
  characterisation: a whitespace-only border around an infix, and an
  occurrence position.
- `traffic.dfy`, module `Traffic`: the interface records. It also holds the
  reference predicate `HasTraffic` (total active, or some day active) and
  the reference filter `Kept`. Two imperative methods are proved against
  them. `InterfaceHasTraffic` is the total check plus the day scan with its
  early `break`. `FilterInterfaces` is the appending loop.
- `shaper.dfy`, module `Shaper`: the tool run, the parsed document and the
  payload as datatypes. `Shape` is the reference payload function.
  `GetVnstatData` is the imperative method proved equal to it. The lemmas
  state the payload properties.

The three payload shapes are the three constructors of `Payload`, so a
mixed payload cannot be written down at all. `Shape` is a function of the
run alone, so two identical runs give identical payloads.

Inputs that the source computes by I/O are parameters. The exit code, the
standard error and the already-parsed standard output form a
`ToolRun.Completed`. When `subprocess.run` itself raises, the run is
`ToolRun.LaunchFailed(description)`. This happens when the process cannot
be started, or when its output cannot be decoded as text. Output that
`json.loads` rejects is `Document.Unparsable(description)`. Both failures end in the function's
`except` clause, which returns `{"error": str(e)}`. The model carries the
description as given.

The source compares counters with `> 0` and never assumes that they are
non-negative. So the model uses `int`, and "an omitted interface has zero
traffic" is stated as "every counter is `<= 0`".

## Model

| member | source | states |
|---|---|---|
| `Text.StripLeft` | app.py:18 | The result is a suffix of the input, everything cut off is whitespace, and the result does not start with whitespace. |
| `Text.StripRight` | app.py:18 | The result is a prefix of the input, everything cut off is whitespace, and the result does not end with whitespace. |
| `Text.Strip` | app.py:18 | The result is an infix of the input with only whitespace before and after it, and it neither starts nor ends with whitespace (the `strip()` of the tool's standard error). |
| `Text.Contains` | app.py:21 | The recursive search returns true exactly when the pattern occurs at some position of the text (Python's `in` on strings). |
| `Shaper.ToolErrorText` | app.py:18-22 | The error text starts with the stripped standard error. The rest is the version hint when the stripped text mentions `unrecognized option` or `invalid option`, and nothing otherwise. |
| `Shaper.ToolFailureIsError` | app.py:17-23 | Every non-zero exit gives an `Error` payload that starts with the stripped standard error. The hint is appended if and only if that text mentions a rejected option. |
| `Shaper.RejectedOptionGetsHint` | app.py:17-23 | Concrete case: exit code 1 with stderr `vnstat: unrecognized option '--json'` plus a newline gives that text without the newline, followed by the hint. |
| `Shaper.NoInterfacesIsError` | app.py:28-33 | With exit code 0, a parsed document whose `interfaces` key is missing or empty gives the fixed "no monitored interfaces" error. |
| `Traffic.InterfaceHasTraffic` | app.py:39-55 | The total check followed by the day scan with early exit returns exactly `HasTraffic`: total active, or some day active (the existential over all days). |
| `Traffic.FilterInterfaces` | app.py:36-58 | The appending loop returns exactly the reference filter `Kept` of its input. |
| `Traffic.KeptPositions` | app.py:36-58 | The filtered list is the input read at an increasing list of positions, and those positions are exactly the ones whose interface has traffic. So the list is an order-preserving subsequence, every record is unchanged, and nothing with traffic is dropped. |
| `Traffic.KeptMembers` | app.py:38-58 | An interface is in the filtered list if and only if it is in the input and has traffic. |
| `Traffic.KeptEmpty` | app.py:38-60 | The filtered list is empty if and only if no input interface has traffic. |
| `Traffic.ActiveTotalIsKept` | app.py:43-46 | An interface whose total `rx` or `tx` is positive is kept, whatever its `day` list holds. |
| `Traffic.IdleTotalKeptIffActiveDay` | app.py:47-55 | An interface whose total is not positive is kept if and only if some day has positive `rx` or `tx`. |
| `Traffic.OmittedAreIdle` | app.py:38-58 | An input interface that is left out has no positive counter, neither in its total nor on any day. |
| `Shaper.GetVnstatData` | app.py:17-69 | The imperative shaping (error mapping with the in-place `+=`, the empty check, the filter, the payload choice) returns exactly `Shape` of the run. |
| `Shaper.ListedInterfacesOutcome` | app.py:36-65 | With exit code 0 and a non-empty interface list the payload is never `Error`. It is `Message` with the fixed text exactly when no interface has traffic. Otherwise it is a non-empty `Interfaces` list of exactly the listed interfaces that have traffic. |
| `Shaper.PayloadCases` | app.py:12-69 | Total case split over all runs. `Error` if and only if the run failed, exited non-zero, was unparsable or listed no interface. `Message` if and only if it parsed, listed interfaces and none has traffic. `Interfaces` if and only if it parsed and some interface has traffic. |
| `Shaper.OrderIsKept` | app.py:36-65 | Concrete case: for interfaces `[a, b, c]` where only `a` has no traffic, the payload is `Interfaces([b, c])`. `c` is kept by its second day alone. |

## Left out

- Running the tool is not modelled (`subprocess.run` at app.py:16). Its exit code, standard output and standard error are inputs. Any exception `subprocess.run` raises (a failed start, or output that cannot be decoded) is the `LaunchFailed` input. A non-zero exit whose standard error cannot be decoded therefore gives `Error(description)`, not the stripped standard error.
- JSON parsing is not modelled (`json.loads` at app.py:25). The output arrives already parsed, or as `Unparsable` with a description. The model does not reproduce the `str(e)` text of any exception.
- Ill-typed JSON is not modelled. Examples are a string or `null` as `rx`, a non-object `traffic` or `total`, a non-list `day`, or a non-list `interfaces`. The model's datatypes rule these out. On such input the source's result depends on evaluation order, so it is not always an exception:
  - The `or` at app.py:45 and app.py:53 short-circuits. A bad `tx` next to a positive `rx` is never compared, and the interface is kept.
  - The `break` at app.py:55 ends the day scan. Days after the first active one are never read. A bad day before it raises `TypeError`, and the whole result becomes `{"error": str(e)}` at app.py:67-69.
  - When the total is active, `day` is never looked at (app.py:45-49), so a malformed `day` does not raise.
  - A falsy value of another type as `interfaces` (`{}`, `""`, `0`, `false`) passes the `not interfaces` test at app.py:30. It gives the "no monitored interfaces" error, not an exception.
- Traffic.HasTraffic: the existential over all days equals the early-exit scan of app.py:47-55 only on well-typed records. On ill-typed ones the scan's order decides between keeping the interface and raising, as described above.
- JSON floats and booleans as counters are not modelled; counters are `int`.
- Only some record fields are modelled. Interface fields other than `name` and `traffic` are left out. So are the keys of the `traffic` object other than `total` and `day` (such as `fiveminute`, `hour`, `month`, `year` and `top`). Keys of `total` other than `rx` and `tx` are left out, and so are day fields other than `rx` and `tx`. The source passes whole records through untouched in the `interfaces` payload. Record equality in the model covers only the modelled fields.
- Logging (app.py:10, 14, 19, 32, 62, 68) is left out because it has no effect on the result.
- The Flask app, the route and `jsonify` (app.py:2, 7, 71-74) are HTTP plumbing and are left out, as is the host and port configuration with `app.run` (app.py:76-83).
