# IFUCube validate-and-repair engine, in Dafny

`IFUCube` checks one FITS data cube and can repair it. `check(filename, fix)`
skips a file that does not exist or that `fits.open` cannot open. Otherwise it
finds every `check_`-prefixed method of the instance. It runs each of them
once, in `dir()` order, on the opened file. Every rule sees the file as the
rules before it left it. No verdict stops the later rules.

There are two rules:

- `check_data` passes when the primary HDU has a `data` attribute that is
  not None. It can fix neither failure.
- `check_ctype` passes when `CTYPE1`, `CTYPE2` and `CTYPE3` are all in the
  primary header. With `fix` it writes each missing key into the header in
  place.

The project has three modules:

- `Fits` (`fits.dfy`) holds the container. `Hdu` is the primary HDU as a
  class. Its `header` is a map from card names to scalar values, and `data`
  is either absent, None or an array of some shape. `OpenResult` is what opening
  gives: `OpenFailed` for any exception, or the HDU.
- `Rules` (`rules.dfy`) holds the two rules. `check_data` is the function
  `CheckData`. `check_ctype` is the method `CheckCtype`, which updates the
  header of an `Hdu` in place. Its loop is proved against the specification
  function `CtypeScan`, and lemmas about `CtypeScan` carry the properties.
- `Checker` (`checker.dfy`) holds discovery and the orchestrator. A `dir()`
  listing is filtered by prefix in `Discover`. The fixed rule sequence
  `AllRules` is proved to be what discovery finds. `RunAll` is the
  specification of running a rule sequence on one shared header. The methods
  `RunRules` and `Check` carry out the loop and the existence and open
  gating.

Python's `check` returns None. The model's `Check` instead returns an
`Outcome`: `FileMissing`, `CannotOpen`, or `Ran(report)`. The report holds one
`Verdict` per rule, in the order the rules ran. This makes visible what the
rules return and what `check` discards.

Where the code is not what it evidently means:

- Line 90 builds the key as `'CTYPE' + ctype_num`, which is str + int. As
  written, that raises TypeError on the first iteration. Because
  `check_ctype` runs first, `check_data` would then never run. The model uses
  the evident key, `"CTYPE" + str(n)` (`Rules.CtypeKey`).
- Line 93 calls `.format` on the None that `log.warning` returns. Logging is
  not modelled, so this second crash does not arise in the model either.
- Lines 98–100 assign three times to the same card, and each assignment
  overwrites the one before. Only the last one counts. A missing `CTYPE3`
  gets `'WAVE'`, and a missing `CTYPE1` or `CTYPE2` gets `False`. The
  `'RA---TAN'` and `'DEC--TAN'` choices are never kept. Per-axis defaults
  (RA tangent, Dec tangent, wavelength) look like the intent. The model
  follows the code and writes what the code leaves behind (`Rules.FixCtype`,
  `Rules.WrittenValues`).
- `check` never closes the file it opens. The model has no notion of release.

## Model

| member | source | states |
|---|---|---|
| `Rules.CheckData` | ifucube.py:48-77 | The verdict is true iff the `data` attribute exists and is not None. This holds for either value of `fix`, so fixing never turns a failure into a pass. It is a function, so it writes nothing. |
| `Rules.CtypeKey` | ifucube.py:90 | The key for axis `n` is `CTYPE` followed by one character, the digit `n`. |
| `Rules.CtypeKeys` | ifucube.py:89-90 | The keys `range(1, 4)` visits are three, and no two of them are the same key. |
| `Rules.CtypeKeysAreLiterals` | ifucube.py:89-90 | The loop over `range(1, 4)` visits exactly `CTYPE1`, `CTYPE2`, `CTYPE3`, in that order. |
| `Rules.FixCtype` | ifucube.py:98-100 | Repairing a missing key adds that key and no other, leaves every other card as it was, and leaves the value of the last of the three assignments. |
| `Rules.WrittenValues` | ifucube.py:98-100 | A repaired `CTYPE1` or `CTYPE2` holds `False`, and a repaired `CTYPE3` holds `'WAVE'`. |
| `Rules.CtypeScan` | ifucube.py:88-106 | The loop of `check_ctype` over a key sequence, as the verdict and the header it leaves. Each key is tested against the header as the earlier keys left it, and a missing key is repaired only with `fix`. Its own contract says that a passing scan leaves the header unchanged. The lemmas below give the rest. |
| `Rules.ScanVerdict` | ifucube.py:88-106 | The rule returns true iff every key was present on entry, with or without `fix`. It returns false whenever a key was missing, even after repairing it. |
| `Rules.ScanReadOnly` | ifucube.py:95-100 | With `fix` false the header is left exactly as it was, because every write is guarded by `if fix`. |
| `Rules.ScanRepairs` | ifucube.py:89-104 | With `fix`, the keys afterwards are the old keys plus the required ones. A key present on entry keeps its old value, and a key missing on entry holds the value written for it. |
| `Rules.ScanAllPresent` | ifucube.py:91-104 | A header that already holds every key passes and is left untouched, in both modes. |
| `Rules.ScanFixIdempotent` | ifucube.py:89-106 | A second fixing pass over the header that a fixing pass produced returns true and changes nothing. |
| `Rules.ScanFixNeverUpgrades` | ifucube.py:91-95 | `fix` never changes the verdict, only the header. |
| `Rules.CtypeContract` | ifucube.py:88-106 | For the three CTYPE keys: the verdict is the all-present test on entry. `fix` false changes nothing. `fix` adds the missing keys and keeps the present ones, and no key outside CTYPE1..3 appears. |
| `Rules.CheckCtype` | ifucube.py:79-106 | The in-place loop returns the verdict and leaves the header that `CtypeScan` specifies. It also gives the verdict, no-mutation, presence, preservation and no-other-key facts directly, and it does not touch the data. |
| `Checker.HasRulePrefix` | ifucube.py:43 | A name counts as a rule iff it starts with `check_`. Such a name never starts with `_` and is never `check` itself. |
| `Checker.Rule.Name` | ifucube.py:40-43 | Every rule in the fixed rule sequence is named by a method that carries the `check_` prefix (`check_ctype`, `check_data`), so the prefix filter keeps it. |
| `Checker.LexLess` | ifucube.py:41 | The strict code-point order in which `dir()` sorts names, with a proper prefix first. It never relates a name to itself. |
| `Checker.Discover` | ifucube.py:40-43 | The rules found are exactly the listed names that start with `check_`, each taken from the listing. |
| `Checker.DiscoverKeepsOrder` | ifucube.py:40-43 | Discovery on a sorted `dir()` listing yields the rules in sorted order. |
| `Checker.DiscoverSkips` | ifucube.py:40-43 | Names that lack the prefix add nothing to what discovery finds. |
| `Checker.PlainRules` | ifucube.py:40-43 | Among IFUCube's names that do not start with `_` (`check`, `check_ctype`, `check_data`), discovery keeps `check_ctype` then `check_data`. `check` has no underscore after it and is left out. |
| `Checker.RuleNamesSorted` | ifucube.py:41 | `check_ctype` sorts before `check_data`. |
| `Checker.RulesAreDiscovered` | ifucube.py:40-43 | On any listing of the form `dir()` gives for an IFUCube, discovery yields exactly the names of `AllRules`, in `AllRules` order, and that order is sorted. Such a listing is any run of names starting with `_` (`__init__` among them), then `check`, `check_ctype`, `check_data`. |
| `Checker.ApplyRule` | ifucube.py:46 | One rule applied to a header and data gives its verdict and the header it leaves: `check_ctype` as `CtypeScan` over CTYPE1..3, and `check_data` as `CheckData`, leaving the header alone. No rule removes a key, and a passing rule changes nothing. |
| `Checker.RunAll` | ifucube.py:45-46 | The rules in order, each fed the header the previous one left, give the report and the final header. No run removes a key. |
| `Checker.RunAllRunsEveryRule` | ifucube.py:45-46 | The report has one entry per rule, and entry `i` belongs to rule `i`, whatever the verdicts. No rule is skipped or repeated. |
| `Checker.RunAllAppend` | ifucube.py:45-46 | Running `a + b` means running `a`, then running `b` on the header `a` left. |
| `Checker.RunAllVerdictAt` | ifucube.py:45-46 | Rule `i`'s verdict is that rule applied to the header as the first `i` rules left it. |
| `Checker.RunAllReadOnly` | ifucube.py:45-46 | With `fix` false, a whole run leaves the header as it was. |
| `Checker.CheckPass` | ifucube.py:40-106 | One pass of IFUCube's rules reports `check_ctype` (all CTYPE keys present on entry), then `check_data` (data present). Only `check_ctype`'s repair changes the header. |
| `Checker.CheckFixTwice` | ifucube.py:45-106 | A second fixing pass over the fixed header reports `check_ctype` as passing. `check_data` keeps its verdict and the header stays the same. |
| `Checker.RunRule` | ifucube.py:46 | Calling one discovered rule changes the HDU's header exactly as `ApplyRule` specifies, and never the data. |
| `Checker.RunRules` | ifucube.py:45-46 | The loop returns the report `RunAll` specifies and leaves the header `RunAll` specifies. |
| `Checker.Check` | ifucube.py:19-46 | A missing file gives `FileMissing`, and an unopenable one gives `CannotOpen`. In both cases no rule runs and nothing changes. Otherwise the result is `RunAll`'s report and header. With `fix` false the header is unchanged, and the data is never changed. |

## Left out

- Logging: every `log.*` call and `logging.basicConfig` is a side channel. Model values carry no messages or severities.
- `os.path.isfile` and `fits.open`: filesystem I/O and a call into astropy. They become the inputs `isFile` and `open` of `Checker.Check`. Every way opening can fail is the single `OpenFailed`.
- Reflection: `getattr` and `callable` are not modelled. Every `check_` member of IFUCube is a method, and the rule sequence `AllRules` stands in for the bound methods. `Checker.RulesAreDiscovered` ties it to the prefix filter over the names `dir()` lists.
- The inherited attribute names of `object` are not listed one by one. They are a parameter, assumed to begin with `_`.
- Array contents and shape: the shape is only logged, so `DataAttr.Present` keeps it but nothing reads it.
- HDUs other than `fits_file[0]`, the order of header cards, and writing the repaired file back to disk.
- Header keys and values: keys are taken as already normalised to upper case. astropy looks keys up without regard to case, and the string-keyed map does not model that. The modelled card values are strings, booleans, integers and reals. Floating-point rounding, complex values and undefined (None) cards are not modelled; the rules only log card values.
- The two runtime crashes on lines 90 and 93 (see above): the model takes the evident intent of those lines.
