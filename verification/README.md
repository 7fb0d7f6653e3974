# MetaWards network orchestration and console debug gate, in Dafny

This project models two small sequential pieces of MetaWards, a ward-network
epidemic simulator:

- **The `Network` record and its lifecycle** (`Networks` module, `network.dfy`).
  `Network.build` hands the node and link ceilings to a build function. It then
  adds distances if asked. Last, it attaches the seed list read from the seed file,
  when one is configured. `add_distances` runs a distance function, reads the
  memoised `(min, max)` link-distance pair, and sets the parameters' dynamic
  distance cutoff to the maximum plus one. The memo is filled on first read and
  never cleared. The `_utils` helpers that do the real work are total functions
  with no body, held in a `Utils` record. Every call into a helper is appended to
  a `Call` trace, so that which helper runs, how often and in what order can be
  stated.
- **The console's debug gate and theme choice** (`Console` module, `console.dfy`).
  The console carries a two-field debug state `(enabled, level)`.
  `set_debugging_enabled` overwrites it and `debugging_enabled(level)` decides
  from it. `debug` drops a suppressed message and puts `Level {level}: ` in front
  of a message logged at a level. `set_theme` picks a theme from a name or
  stores a theme object.

`text.dfy` (`Text` module) holds the Python string behaviour this relies on:
`str.lower()`, `str.strip()`, `str(int)`, and a parser that reads such an
integer back. That parser accepts only what `str()` writes: no leading zeros
and no "-0". `wrappers.dfy` holds `Option` and `Result`.

The `Network` object is modelled as `NetworkState`. It pairs the dataclass
fields (`Network`) with the memo attribute `_min_max_distances`. The memo is an
attribute set at run time, not a dataclass field. The helpers take and return
only the `Network` fields, so they cannot touch the memo. The memo changes only
in `get_min_max_distances`.

The code never invalidates the memo. A second `add_distances` therefore derives
the cutoff from the pair cached by the first call, even when its distance
function has changed the distances (`Networks.RepeatedAddDistancesReusesPair`).

## Model

| member | source | states |
|---|---|---|
| `Networks.NewNetwork` | src/metawards/_network.py:20-44 | A default `Network()` has zero node, link and play-link counts, no node or link tables, no seeds and no parameters, and ceilings 10050 and 2414000 |
| `Networks.GetMinMaxDistances` | src/metawards/_network.py:128-140 | A stored pair is returned without calling the helper; otherwise the helper is called once on the network, and its pair is returned and stored; the network is unchanged |
| `Networks.MinMaxIsMemoised` | src/metawards/_network.py:132-140 | Two reads in a row return the same pair, and the second read calls no helper |
| `Networks.ChosenDistance` | src/metawards/_network.py:101-103 | The distance function `add_distances` runs is the one given, or the default helper when none is given |
| `Networks.SeedConfigured` | src/metawards/_network.py:81 | The seed step runs exactly when the seed path is neither `None` nor the empty path, as Python's truth test decides |
| `Networks.AddDistances` | src/metawards/_network.py:92-112 | The distance function runs exactly once and first; the default helper runs when none is given. The min/max helper runs at most once: after the distance function, only when no pair is stored, and then on the network the distance function produced. So the trace has two calls without a stored pair and one with it. The cutoff becomes the stored max plus 1, and nothing else in the network changes. It fails exactly when the measured network has no parameters |
| `Networks.RepeatedAddDistancesReusesPair` | src/metawards/_network.py:101-112 | A second `add_distances` keeps the pair stored by the first, calls no min/max helper, and writes a cutoff of that pair's max plus 1 |
| `Networks.Construct` | src/metawards/_network.py:70-76 | The build function gets the ceilings unchanged, and the default helper is used when no function is given; the resulting object has no memo |
| `Networks.AttachSeeds` | src/metawards/_network.py:81-88 | With a non-empty seed path, `to_seed` becomes exactly the list the reader returns and nothing else changes; without one, the object is unchanged and the reader is not called |
| `Networks.Build` | src/metawards/_network.py:46-90 | The first call is the build function with the given ceilings. It succeeds iff distances are off, or the built network measured by the chosen distance function has parameters. With distances on, the stored pair is the min/max helper's pair for that measured network, and the result is that measured network with only the cutoff (stored max plus 1) and `to_seed` changed. With distances off, the result is the built network with at most `to_seed` changed. `to_seed` is the read list when a seed file is set, and the seed reader is called iff one is set. Within the model, where the helpers never raise, a missing `params` at the distance step is the only failure |
| `Networks.BuildCallOrder` | src/metawards/_network.py:70-88 | The complete helper-call order of a successful build: build function; then the distance function and the min/max helper (when distances are on); then the seed reader (when a seed file is set) |
| `Networks.UnseededBuildKeepsToSeed` | src/metawards/_network.py:74-90 | Without a seed file, `to_seed` keeps the value the build and distance functions left; with distances off, the network is exactly what the build function returned |
| `Networks.BuildWithDefaults` | src/metawards/_network.py:47-52 | Default `build` passes the same ceilings as a default `Network()`, uses the default distance helper, and fails exactly when the default helpers leave no parameters |
| `Console.Truthy` | src/metawards/utils/_console.py:56 | `bool(v)` is false exactly for `None`, `False`, `0` and the empty string |
| `Console.SetDebuggingEnabled` | src/metawards/utils/_console.py:52-57 | The new state is `bool(enabled)` with the given level, whatever the previous state was |
| `Console.DebuggingEnabled` | src/metawards/utils/_console.py:160-177 | Disabled: nothing is shown. With a stored level: a level-less query or a level at most the stored one is shown. Without a stored level: only level-less queries are shown |
| `Console.InitiallySilent` | src/metawards/utils/_console.py:100-103 | A console never configured shows no debug message at any level, or with none |
| `Console.EnabledIsDownwardClosed` | src/metawards/utils/_console.py:171-175 | When level `l` is shown, every lower level is shown, and so are level-less messages |
| `Console.LevelQueryAfterSet` | src/metawards/utils/_console.py:168-177 | After setting `(enabled, level)`, a message at level `l` is shown iff `enabled` is truthy and a level `t >= l` was given |
| `Console.Debug` | src/metawards/utils/_console.py:188-207 | A line is logged iff `debugging_enabled(level)`. Without a level it is the text unchanged. With a level it is `Level `, then `str(level)`, then `: ` and the text, and it parses back to exactly that level and that text |
| `Console.LevelPrefix` | src/metawards/utils/_console.py:206-207 | The level prefix is `Level `, the level written as `str(level)` writes it, and `: `. The part between holds no colon and reads back as the level |
| `Console.DebugLineRoundTrip` | src/metawards/utils/_console.py:206-207 | `Level {level}: {text}` parses back to `level` and `text` for every integer level and every text |
| `Console.ParseDebugLineInverse` | src/metawards/utils/_console.py:206-207 | Every line the parser accepts is exactly the prefix of the level it reads, followed by the text it reads. So no other spelling of a level, such as `07`, stands for a prefixed line |
| `Console.SetTheme` | src/metawards/utils/_console.py:59-74 | A name normalising to "simple" or "default" selects Simple or SpringFlowers; any other name keeps the current theme; a non-string argument (`None` included) is stored as given |
| `Console.SetThemeByName` | src/metawards/utils/_console.py:66-72 | A name selects a theme iff it is "simple" or "default" in any letter case, with only whitespace around it |
| `Console.SetThemeIdempotent` | src/metawards/utils/_console.py:66-74 | Setting the same theme argument twice equals setting it once |
| `Console.GetTheme` | src/metawards/utils/_console.py:76-84 | The stored theme is returned; when none is stored, SpringFlowers is returned and stored |
| `Console.DefaultNameMatchesNoTheme` | src/metawards/utils/_console.py:66-84 | Setting the name "default" and setting the object `None` both lead to SpringFlowers being in use |
| `Text.NormalisedEqualsIff` | src/metawards/utils/_console.py:67-70 | `s.lower().strip() == name` (for a lower-case name with non-space ends) iff `s` is `name` in some letter case, padded with whitespace |
| `Text.Strip` | src/metawards/utils/_console.py:67 | `strip()` returns a slice of its input with non-space ends, and only whitespace on either side of it |
| `Text.StripOfPadded` | src/metawards/utils/_console.py:67 | `strip()` of whitespace, then a word with non-space ends, then whitespace, is exactly the word |
| `Text.Lower` | src/metawards/utils/_console.py:67 | ASCII lower-casing: each character is mapped on its own, A-Z to a-z and every other character to itself, so the length is kept |
| `Text.IntToDecimal` | src/metawards/utils/_console.py:207 | `str(level)` has a minus sign exactly for negative levels. Its digits have no leading zero except in "0", and it has no "-0" |
| `Text.IntToDecimalRoundTrip` | src/metawards/utils/_console.py:207 | The decimal form of an integer level, as written into the prefix, parses back to the same integer |
| `Text.ParseIntInverse` | src/metawards/utils/_console.py:207 | Every string the integer parser accepts is exactly `str()` of the integer it reads, so each integer has one written form |

## Left out

- `src/metawards/_ran_binomial.py`: a thin wrapper over a foreign random generator. Its seed defaults to a random integer and it prints. Nothing is stateable beyond the foreign call.
- The bodies of `build_wards_network`, `add_wards_network_distance`, `get_min_max_distances` and `read_done_file` are not part of this model. Capacity checks, position reading and distance formulas happen inside them, so they are not modelled.
- The helpers are modelled as total functions with these constraints:
  - None of them raises. In Python an exception from the build function (`src/metawards/_network.py:74`), the distance function (:105), the min/max helper (:138) or `read_done_file` (:83) propagates out of `build`.
  - The min/max helper and `read_done_file` cannot change the network.
  - No helper can read or set `_min_max_distances`, so a build function never returns an object that already holds a pair.
  - The build and distance functions do not change the caller's seed path, which Python reads again at `src/metawards/_network.py:81` after both have run. The model reads the seed path from the `params` argument, so a helper that rewrites `params` inside the network does not affect the seed step.
- `initialise_infections`, `initialise_play_infections`, `reset_everything`, `rescale_play_matrix` and `move_from_play_to_work` on `Network` only forward to `_utils` helpers that are not part of this model. There is nothing to state about them beyond the forwarding.
- The `print` calls in `build` and `add_distances` are output only.
- Distances and the cutoff are mathematical reals. Floating-point rounding of `max + 1` is not modelled.
- Networks.AddDistances: when the network has no parameters, Python raises. By then the distance function has already run and the memo has been filled on the object. The model returns `MissingParameters` and drops those partial effects.
- Networks.Build: the `params` argument is always a parameter record. A `None` argument, or one without `input_files`, would raise in Python and is not modelled. Python's parameter object is shared between the caller and the network, so the cutoff write is visible to the caller too. The model returns the updated parameters only inside the network. The cutoff that `add_distances` writes is not the seed path, so that write does not change what `build` does.
- Networks.UnseededBuildKeepsToSeed: without a seed file, `to_seed` keeps the value the helpers leave. It is `None` only when they leave it at the `Network()` default, which is theirs to decide and is not modelled.
- Networks.GetMinMaxDistances: Python falls back to computing on any exception while reading the memo attribute. The model has only one such case, the absent attribute.
- Every rendering and stream method of the console is left out: `print` (including its switch to the simple theme when encoding fails), `rule`, `panel`, `error`/`warning`/`info`, `center`, `command`, `spinner`, `save`, `redirect_output`, and the profiler and population printers.
- `_retrieve_name`, and the variable table and markdown rendering in `debug`, use stack-frame inspection or rendering.
- Console.Debug: the text is a string. A callable text (called first) or a non-string text (passed through `str()`) is not modelled. Debug levels are integers.
- Text.Lower: only ASCII capitals are lowered, one character at a time. Python's `lower()` also lowers non-ASCII capitals, and it lengthens some of them: `"İ".lower()` has two characters. This matters only for theme names, which is covered under `Console.SetTheme` below.
- Console.SetDebuggingEnabled: `bool(enabled)` is modelled for `None`, booleans, integers and strings, not for arbitrary objects.
- Console.SetTheme: theme objects are `Simple`, `SpringFlowers`, or an opaque `Custom` value. Only ASCII capitals are lowered. Python's `lower()` also maps other characters. But no non-ASCII character lowers to a string made only of ASCII letters from "simple" or "default". The selection outcome is therefore the same for those two names. Whitespace for `strip()` is the set Python's `str.isspace()` accepts.
