# django-googlecharts: the URL engine, in Dafny

django-googlecharts turns chart data and styling directives in a Django
template into a Google Chart API image URL, or into an `<img>` tag that shows
it. This project models the engine under the template tags:

- **Numeric codec.** `norm` maps a value into 0..4095. A two-character table
  over the 64-symbol alphabet `A-Z a-z 0-9 - .` gives each level its code.
  `encode_extended` chains the codes, with `__` for a missing value.
  `encode_text` joins the values with `,`.
- **Ordered option map and merge rule.** `SortedDict` keeps insertion order.
  `OptionNode.update_options` either assigns each returned key or appends
  `old + sep + new`.
- **Directive callbacks.** Each one turns resolved arguments into option
  keys. They cover the chart type, colours, size, title, fills, gradients,
  stripes, legend, labels, bar width, line style, grid, range and fill-area
  markers, markers, the googlecharts map area and map data, and the axis
  options with their `%s` placeholder. They also include the metadata tags
  `chart-data-range` and `chart-alt`, and the arity check made when a tag is
  registered.
- **Datasets.** `ChartDataNode.resolve` splits strings on `,`, converts each
  item and drops the missing values and the zeros.
- **String helpers.** These are `smart_join`, `flatten` and the `urlencode`
  wrapper around `quote_plus` (safe set `/:,|`, space to `+`, `%XX`
  otherwise).
- **The `Chart` object.** This is a class with the fields `options`,
  `datasets`, `axes`, `datarange` and `alt`. Its methods are the
  constructor, `clone`, the tag updates, `url()` and `img()`:
  - `url()` runs the googlecharts map step, infers the data range, chooses
    the encoding, fills in the defaults and serialises the options and the
    axes.
  - `img()` recolours `chco` temporarily in the top-level copy, then splits
    `chs` into width and height.

The repository carries two near-identical copies of the engine:
`templatetags/charts.py` and `googlecharts/templatetags/charts.py`. They are
modelled once. `Variant = TopLevel | GoogleCharts` selects between them where
they differ:

- the `_` filter in `urlencode`;
- the map chart type and its `_mapdata`;
- the colour override of `img()`;
- `chart-data-scale`, `chart-map-area` and `chart-map-data`;
- the chart type aliases;
- how the arity check computes `min_args`.

Python exceptions become `Err(...)` of a `Result`. The module layout:

- `wrappers`: `Option`, `Result`, the errors, the variant flag.
- `values`: resolved template values and their truthiness.
- `strings`: split, join, `smart_join`, `flatten`, `%` formatting.
- `quoting`: `quote_plus` and `urlencode`.
- `codec`: `norm`, the code table, the encoders and their decoders.
- `ordered`: the ordered map.
- `options`: the merge rule.
- `directives`: the callbacks and the arity check.
- `datasets`: `chart-data`.
- `axes`: axis resolution and the axis part of the URL.
- `render`: what `url()` and `img()` do, stated on state values.
- `charts`: the `Chart` class. Its methods are proved against the `render`
  functions.

In these places the code does something a reader may not expect; the model
follows the code:

- **`chart-data-range` with `auto`.** `auto` resets the data range only when
  no upper bound is given. `auto 100` first tries `float("auto")`, fails with
  `ValueError` and leaves the range as it was (`Render.RangeAuto`).
- **Datasets.** Datasets hold no missing markers and no zeros, because
  `filter(None, ...)` drops both.
- **Rounding.** Rounding is Python 2 `round`, half away from zero.
- **Empty data.** Empty data is a `max()` of nothing (`EmptyData`). A
  zero-width range is a division by zero (`ZeroDivision`).

Python 2 iterates a dictionary in an unspecified order. Where the code
iterates a literal dictionary, the model fixes one order:

- the defaults: `chs` then `cht`;
- `chart_title`: `chts` then `chtt`;
- `chart_map_data`: `_mapdata` then `chld`.

A dictionary passed in as data lists its entries in its own iteration order.

## Model

| member | source | states |
|---|---|---|
| Strings.Split | templatetags/charts.py:116 | `str.split` with one separator: at least one piece, and no piece contains the separator |
| Strings.JoinSplit | templatetags/charts.py:112-124 | joining the pieces of a split with the separator gives the string back |
| Strings.SplitJoin | templatetags/charts.py:116-122 | splitting a join of separator-free pieces gives the pieces back |
| Strings.SmartJoinSkipsNone | templatetags/charts.py:652-653 | of `SmartJoin`, the model of `smart_join`: a `None` argument contributes nothing to `smart_join` |
| Strings.SmartJoinSplit | templatetags/charts.py:652-653 | of `SmartJoin`: when no argument's text contains the separator, splitting a `smart_join` gives the texts of the non-`None` arguments in order |
| Strings.PresentOnlyFrom | templatetags/charts.py:653 | the arguments kept by `smart_join` are drawn from its arguments |
| Strings.Flatten | templatetags/charts.py:667-673 | `flatten` yields only non-iterable values; what each item contributes is fixed by FlattenScalars, FlattenNested, FlattenDict and FlattenAppend |
| Strings.DictKeys | templatetags/charts.py:667-673 | iterating a dictionary yields its keys: every scalar key appears, and a list or dictionary key (which Python cannot hash) is skipped |
| Strings.DictKeysOnlyKeys | templatetags/charts.py:667-673 | iterating a dictionary yields nothing but its keys |
| Strings.DictKeysInOrder | templatetags/charts.py:667-673 | when every key is hashable, as in any Python dictionary, iterating the dictionary yields exactly its keys in iteration order |
| Strings.FlattenScalars | templatetags/charts.py:667-673 | `flatten` of values that are not iterable is the identity |
| Strings.FlattenAppend | templatetags/charts.py:667-673 | `flatten` distributes over concatenation |
| Strings.FlattenNested | templatetags/charts.py:669-671 | a nested list is replaced, in place, by the flattening of its items |
| Strings.FlattenDict | templatetags/charts.py:669-671 | a dictionary is replaced, in place, by its keys in iteration order |
| Strings.FlattenDictKeys | templatetags/charts.py:669-671 | with hashable keys, `flatten` of a dictionary is exactly its keys, in iteration order |
| Strings.FlattenIdempotent | templatetags/charts.py:667-673 | flattening twice is flattening once |
| Strings.ReplaceChar | templatetags/charts.py:421 | `str.replace` of one character: same length, exactly the matching positions replaced |
| Strings.ReplaceCharRemoves | templatetags/charts.py:421 | after the title's newlines are replaced, none is left |
| Strings.NatTextRoundTrip | templatetags/charts.py:163 | the decimal text of an axis index reads back as that index |
| Strings.FormatPlaceholder | templatetags/charts.py:163 | of `Format`, the model of `template % i`: `template % index` on a template with one `%s` substitutes the index there and unescapes `%%` |
| Strings.FormatLeading | templatetags/charts.py:163 | of `Format`: a template starting with `%s` and otherwise free of `%` yields the index followed by the rest |
| Strings.FormatWithoutPlaceholder | templatetags/charts.py:163 | of `Format`: a template with no `%` raises "not all arguments converted" |
| Quoting.QuotePlusPerChar | templatetags/charts.py:660-665 | of `QuotePlus`, the model of `quote_plus`: `quote_plus(s, safe="/:,\|")` escapes character by character: safe characters stay, a space becomes `+`, any other byte becomes `%XX` |
| Quoting.PlusEachAlphabet | templatetags/charts.py:660-665 | a quoted string holds only letters, digits, `_.-`, the safe set, `+` and `%` |
| Quoting.QuotePlusRoundTrip | templatetags/charts.py:660-665 | of `QuotePlus`: unquoting a quoted string gives it back |
| Quoting.QuotePlusDefined | templatetags/charts.py:660-665 | of `QuotePlus`: quoting succeeds exactly when every character is a byte |
| Quoting.SafeCharsUnescaped | templatetags/charts.py:660 | `/ : , \|`, letters, digits and `_.-` pass through unescaped |
| Quoting.Kept | templatetags/charts.py:664 | the top-level copy keeps only pairs whose key does not start with `_`, each drawn from the query; the googlecharts copy (googlecharts/templatetags/charts.py:606-611) keeps all |
| Quoting.KeptEvery | templatetags/charts.py:664 | every pair whose key does not start with `_` is kept |
| Quoting.KeptAppend | templatetags/charts.py:664 | the filter works pair by pair and keeps the pairs in their order |
| Quoting.KeptSingle | templatetags/charts.py:664 | the top-level copy keeps one pair exactly when its key does not start with `_` |
| Quoting.KeptAll | templatetags/charts.py:664 | a query with no `_` key is serialised whole, in order |
| Quoting.EncodeItemDecodes | templatetags/charts.py:664 | one `k=v` item has no `&` and decodes back to its key and value |
| Quoting.UrlEncodeRoundTrip | templatetags/charts.py:660-665 | of `UrlEncode`, the model of `urlencode`: decoding the query string gives the kept pairs in map order, and in the top-level copy no internal key |
| Codec.AlphabetSymbols | templatetags/charts.py:631 | the alphabet has 64 symbols, `A..Z a..z 0..9 - .` in that order |
| Codec.TableAt | templatetags/charts.py:632 | entry `i` of the 4096-entry table is `chars[i div 64] + chars[i mod 64]` |
| Codec.TableDecodes | templatetags/charts.py:632 | decoding a table entry recovers its index |
| Codec.TableInjective | templatetags/charts.py:632 | the table entries are pairwise distinct |
| Codec.TableAvoidsMissing | templatetags/charts.py:632-635 | no numeric code is `__`, the code for a missing value |
| Codec.TableEntry | templatetags/charts.py:632-635 | `_num2chars[i]` succeeds exactly for -4096 <= i < 4096, with a two-character code that decodes to `i`, counted from the end when negative |
| Codec.RoundError | templatetags/charts.py:640 | Python 2 `round` is within one half of its argument |
| Codec.RoundHalfAway | templatetags/charts.py:640 | Python 2 `round` takes a tie away from zero: `n + 0.5` goes to `n + 1` and `-n - 0.5` to `-n - 1` |
| Codec.NormInRange | templatetags/charts.py:637-644 | for a value inside a sane range, `norm` succeeds and lies in 0..4095 |
| Codec.NormEndpoints | templatetags/charts.py:637-644 | mixed signs: min to 0 and max to 4095; `min >= 0`: max to 4095 and 0 to 0; `max <= 0`: min to 0 and 0 to 4095 |
| Codec.NormAnchoredAtZero | templatetags/charts.py:639-640 | with `min >= 0` a value maps to 0 exactly when `n/max*4095` is below one half; the scale is anchored at 0, not at `min` |
| Codec.NormAnchoredExample | templatetags/charts.py:639-640 | `norm(10, (10, 30)) = 1365` |
| Codec.Norm | templatetags/charts.py:637-644 | `norm` raises exactly when `min >= 0` and `max == 0`, the one division by zero among its three regimes |
| Codec.NormMonotone | templatetags/charts.py:637-644 | `norm` does not decrease as the value grows, in every regime, for every range it can divide by, inverted ranges included |
| Codec.NormApproximateInverse | templatetags/charts.py:637-644 | reading a level back as a value lands within half a step, a 1/8190 share of the span, of the original value |
| Codec.Num2Chars | templatetags/charts.py:634-635 | a code is two characters |
| Codec.EncodeExtended | templatetags/charts.py:627-629 | the encoding is exactly twice as long as the input, and chunk `k` is the code of value `k` |
| Codec.ExtendedRoundTrip | templatetags/charts.py:627-644 | for values in a sane range, decoding the encoding gives `None` for each missing value and the `norm` level of each present one |
| Codec.EncodeAllInRange | templatetags/charts.py:627-644 | the encoding cannot fail for values inside a sane range |
| Codec.EncodeExtendedAvoidsComma | templatetags/charts.py:145 | an extended encoding holds no `,`, so the datasets can be joined with it |
| Codec.EncodeTextSplit | templatetags/charts.py:624-625 | of `EncodeText`, the model of `encode_text`: splitting `encode_text` on `,` gives each value's text |
| OrderedMaps.Set | templatetags/charts.py:151 | `SortedDict.__setitem__`: an existing key keeps its place, a new key is appended, and the value is updated |
| OrderedMaps.SetKeepsOrder | templatetags/charts.py:151 | setting a key only ever extends the key order, by the new key at the end |
| OrderedMaps.Pop | googlecharts/templatetags/charts.py:106 | `pop` succeeds exactly when the key is present, returns its value and removes only that key; the other keys keep their order |
| OrderedMaps.WithoutAbsent | googlecharts/templatetags/charts.py:106 | removing a key that is not present leaves the key order unchanged |
| OrderedMaps.WithoutAt | googlecharts/templatetags/charts.py:106 | removing a present key closes its gap and keeps every other key in order |
| OrderedMaps.Items | templatetags/charts.py:663 | `items()` lists each key with its value in insertion order |
| OrderedMaps.UpdateKeys | templatetags/charts.py:240 | `dict.update` appends the new keys in first-seen order after the existing ones |
| OrderedMaps.UpdateVals | templatetags/charts.py:240 | after `update`, each returned key holds its new value and every other key keeps its value |
| Options.Concat | templatetags/charts.py:236 | `old + sep + new` succeeds only for two strings and is their concatenation around the separator |
| Options.UpdateOptions | templatetags/charts.py:231-240 | the key-by-key loop of `update_options` computes the merge, and stops at the first concatenation that raises |
| Options.MergeWithoutMulti | templatetags/charts.py:239-240 | of `Merge`, the model of the `update_options` loop: without a separator the merge is a plain `update` and cannot fail |
| Options.MergeWithMulti | templatetags/charts.py:233-238 | of `Merge`: with a separator the merge succeeds exactly when every present key concatenates, and then equals an update with the concatenated values |
| Options.MergeRule | googlecharts/templatetags/charts.py:207-216 | of `Merge`: returned keys get the new value, or old + sep + new with a separator; other keys keep theirs; existing keys keep their place; new keys come at the end |
| Directives.Lookup | templatetags/charts.py:317 | `table.get(v, v)`: an alias maps to its code, anything else passes through, and a list or dictionary raises |
| Directives.CodesAreNotNames | templatetags/charts.py:301-317 | no chart type code is itself an alias |
| Directives.ChartType | templatetags/charts.py:281-318 | `cht` is the code for a known alias and the argument itself otherwise; the googlecharts table (googlecharts/templatetags/charts.py:260-297) has `map` instead of `sparkline` |
| Directives.ChartTypeIdempotent | templatetags/charts.py:281-318 | applying `chart-type` to its own result changes nothing |
| Directives.ChartColors | templatetags/charts.py:320-323 | `chco` splits on `,` into the given colours |
| Directives.ChartDataScale | googlecharts/templatetags/charts.py:298-300 | `chds` splits on `,` into the given values |
| Directives.ChartSize | templatetags/charts.py:382-387 | with a height, `chs` splits on `x` into width and height; without one, `chs` is the first argument itself |
| Directives.ChartBackground | templatetags/charts.py:389-398 | `chf` splits on `,` into `bg`, `s` and the colour |
| Directives.ChartFill | templatetags/charts.py:393-398 | `chf` splits on `,` into `c`, `s` and the colour |
| Directives.Solid | templatetags/charts.py:397-398 | `_solid` gives one `chf` key whose value splits on `,` into the type, `s` and the colour |
| Directives.ChartBackgroundGradient | templatetags/charts.py:400-417 | `chf` splits on `,` into `bg`, `lg`, the angle and the colours |
| Directives.ChartFillGradient | templatetags/charts.py:404-417 | `chf` splits on `,` into `c`, `lg`, the angle and the colours |
| Directives.ChartBackgroundStripes | templatetags/charts.py:408-417 | `chf` splits on `,` into `bg`, `ls`, the angle and the colours |
| Directives.ChartFillStripes | templatetags/charts.py:412-417 | `chf` splits on `,` into `c`, `ls`, the angle and the colours |
| Directives.FancyBackground | templatetags/charts.py:416-417 | `_fancy_background` gives one `chf` key whose value splits on `,` into the type, the fill kind and the texts of the present angle and colours |
| Directives.ChartTitle | templatetags/charts.py:419-425 | `chtt` is the title with every newline turned into `\|` and nothing else changed; with a font size `chts` is `color,size`; a title that is not a string raises |
| Directives.ChartLegend | templatetags/charts.py:427-429 | `chdl` splits on `\|` into the flattened labels |
| Directives.ChartLabels | templatetags/charts.py:431-433 | `chl` splits on `\|` into the flattened labels |
| Directives.ChartBarWidth | templatetags/charts.py:435-437 | `chbh` splits on `,` into the given parts, skipping `None` |
| Directives.ChartLineStyle | templatetags/charts.py:439-441 | `chls` splits on `,` into the given parts, skipping `None` |
| Directives.ChartGrid | templatetags/charts.py:443-445 | `chg` splits on `,` into the given parts, skipping `None` |
| Directives.ChartRangeMarker | templatetags/charts.py:456-459 | `chm` splits on `,` into the range code, the colour, `0`, start and end |
| Directives.ChartFillArea | templatetags/charts.py:461-464 | `chm` starts with `b` when a start or end index is truthy and with `B` otherwise; for comma-free arguments it splits into the fill type, the colour, the two indices and `0` |
| Directives.ChartMarker | templatetags/charts.py:479-482 | `chm` splits on `,` into the marker code, colour, dataset index, data point and size |
| Directives.ChartMapData | googlecharts/templatetags/charts.py:435-446 | `_mapdata` lists the values and `chld` concatenates the places, index by index in the same order; data without `items` raises |
| Directives.NewAxis | templatetags/charts.py:551-570 | a new axis has its side code (or the side itself) and no options |
| Directives.HiddenAxis | templatetags/charts.py:559-564 | a hidden axis holds exactly `chxs` then `chxl` with their fixed templates |
| Directives.AxisLabels | templatetags/charts.py:574-576 | `chxl` formatted with an axis index is `index:\|` followed by the labels |
| Directives.AxisLabelPositions | templatetags/charts.py:578-580 | `chxp` formatted with an axis index is `index,` followed by the positions |
| Directives.AxisRange | templatetags/charts.py:582-584 | `chxr` formatted with an axis index is `index,start,end` |
| Directives.AxisStyle | templatetags/charts.py:586-596 | `chxs` splits on `,` into the placeholder, colour, font size and alignment code |
| Directives.TopLevelAcceptedBinds | templatetags/charts.py:258-273 | in the top-level copy, an accepted option tag can be called exactly when it is not a `*args` callback given fewer arguments than its named parameters |
| Directives.TopLevelVarargsAcceptsTooFew | templatetags/charts.py:258-273 | `unlimited` skips both bounds, so `chart-background-gradient` with no argument is accepted and its call then raises |
| Directives.GoogleChartsAcceptsTooFew | googlecharts/templatetags/charts.py:231-245 | in the googlecharts copy `min_args` stays 0 without defaults, so `chart-type` with no argument is accepted and then fails; the top-level copy rejects it |
| Directives.MetadataAcceptsOneTooMany | templatetags/charts.py:258-273 | for metadata tags `max_args` counts the chart, so one argument too many is accepted and then fails |
| Directives.Callback | templatetags/charts.py:232 | calling a callback whose arguments do not bind raises, and a successful call returns at least one key |
| Directives.CallbackKeysDistinct | templatetags/charts.py:232 | every callback returns a dictionary: its keys are distinct |
| Datasets.SafeFloat | templatetags/charts.py:646-650 | `safefloat` returns a number unchanged and gives `None` for `None`, a list or a dictionary, where `float` raises `TypeError` |
| Datasets.Truthful | templatetags/charts.py:200-202 | `filter(None, ...)` keeps no zero and no more items than it is given |
| Datasets.TruthfulAppend | templatetags/charts.py:200-202 | the filter works item by item: filtering a concatenation filters each part and keeps the parts in order |
| Datasets.TruthfulSingle | templatetags/charts.py:200-202 | one item is kept exactly when it is a non-zero number |
| Datasets.TruthfulKeepsAll | templatetags/charts.py:200-202 | data with no zero and no `None` passes the filter unchanged, in order |
| Datasets.TruthfulCounts | templatetags/charts.py:200-202 | every non-zero number is kept exactly as often as it occurs, and no zero is kept |
| Datasets.ResolveDataset | templatetags/charts.py:189-206 | a missing variable gives the empty dataset; a number or `None` raises; the result has no zeros |
| Datasets.ResolveList | templatetags/charts.py:200-202 | a list dataset holds each non-zero number its items convert to, as often as it occurs, and no zero |
| Datasets.ResolveNumbers | templatetags/charts.py:200-202 | a list of non-zero numbers is the dataset itself, in the same order |
| Datasets.ResolveDict | templatetags/charts.py:200-202 | a dictionary dataset holds the non-zero numbers its keys convert to, with multiplicity |
| Datasets.ResolveString | templatetags/charts.py:200 | a string dataset holds, with multiplicity, each non-zero number its comma-separated pieces convert to |
| Datasets.Resolve | templatetags/charts.py:189-206 | one dataset per argument, in order, and the first argument that raises aborts the tag |
| Axes.ResolveAxis | templatetags/charts.py:543-549 | the loop over the axis body applies each axis option tag in turn to the new axis |
| Axes.AxisCallbackShape | templatetags/charts.py:574-596 | every axis option tag returns exactly one of `chxl`, `chxp`, `chxr`, `chxs`, as a string |
| Axes.ResolvedAxisShape | templatetags/charts.py:543-557 | a resolved axis keeps its side and holds only axis keys with string templates |
| Axes.AxisBodyWellFormed | templatetags/charts.py:543-549 | applying an axis body keeps the axis well formed and keeps its side |
| Axes.HiddenAxisWellFormed | templatetags/charts.py:559-564 | a hidden axis is well formed in the same sense |
| Axes.AppendOptionsOk | templatetags/charts.py:162-163 | one axis's options append without error exactly when each of its templates accepts the axis index |
| Axes.AppendOptionsKeys | templatetags/charts.py:162-163 | `setdefault` appends the axis's new keys in order after the keys already gathered |
| Axes.AppendOptionsCells | templatetags/charts.py:163-164 | after one axis, each of its keys has its template filled with the axis index appended, and other keys are unchanged |
| Axes.GatherKeys | templatetags/charts.py:158-164 | the gathered option keys are the axis keys in first-seen order |
| Axes.GatherColumns | templatetags/charts.py:158-164 | each gathered key holds, in axis order, the filled template of every axis that has it; axes without the key contribute nothing |
| Axes.GatherErrPersists | templatetags/charts.py:159-163 | once one axis's template raises, the whole axis loop raises with that error |
| Axes.Gather | templatetags/charts.py:158-162 | the axis options gathered over the axes, last axis last, form an ordered map with distinct keys; its contents are fixed by GatherKeys and GatherColumns |
| Axes.AxisOptionsRendered | templatetags/charts.py:166-170 | the axis query lists each key in first-seen order with its filled templates joined by `\|` |
| Axes.AppendAxis | templatetags/charts.py:163-164 | the inner `setdefault(...).append` loop computes the one-axis step |
| Axes.GatherAxes | templatetags/charts.py:157-162 | the outer axis loop collects the sides in order and computes `Gather`, stopping at the first raising template |
| Axes.JoinColumns | templatetags/charts.py:166-167 | the joining loop gives, in key order, each key with its gathered strings joined by `\|` |
| Axes.RenderAxes | templatetags/charts.py:156-169 | the axis loops produce `&chxt=` with the sides joined by `,`, then `&` and the encoded options |
| Render.MapStep | googlecharts/templatetags/charts.py:105-106 | for a map chart `_mapdata` leaves the options and becomes the last dataset; a missing `_mapdata` raises; other charts are untouched |
| Render.Max | templatetags/charts.py:134 | `max` returns an element that bounds all the others from above |
| Render.Min | templatetags/charts.py:135 | `min` returns an element that bounds all the others from below |
| Render.Extremes | templatetags/charts.py:133-136 | the inferred range is none exactly when every dataset is empty; otherwise it bounds every value and both ends are values of the data |
| Render.WithRange | templatetags/charts.py:133-136 | only the data range changes, and after success it is set |
| Render.EncodingChoice | templatetags/charts.py:139-146 | the data is `t:`-encoded exactly when `chds` is set or the type is `gom`, and `e:`-encoded otherwise; only the extended encoding can fail |
| Render.ExtendedDataRoundTrip | templatetags/charts.py:144-146 | with every value inside a sane range, the `e:` data splits on `,` into one part per dataset, each decoding to its values' levels |
| Render.DefaultsNeverOverwrite | templatetags/charts.py:149-151 | defaults only fill missing keys: set options keep value and place, `chs` and `cht` are present afterwards, and nothing else is added |
| Render.DefaultsIdempotent | templatetags/charts.py:149-151 | filling in the defaults twice is filling them in once |
| Render.DefaultsCommute | templatetags/charts.py:149-151 | changing an option that is already set commutes with filling in the defaults |
| Render.UrlShape | templatetags/charts.py:154-172 | the URL starts with the base address and `?`, and without axes it ends with the encoded data |
| Render.UrlKeepsOptions | templatetags/charts.py:131-172 | every option except a map chart's `_mapdata` keeps its value; only `chs` and `cht` can be added, and they are present after success; axes and alt are untouched |
| Render.UrlInfersRange | templatetags/charts.py:133-136 | after success the range is the one set, or else the smallest and largest value of the data |
| Render.UrlNeedsData | templatetags/charts.py:134 | with no range set and every dataset empty, `url()` raises |
| Render.UrlRepeatable | templatetags/charts.py:131-172 | apart from the map step, a second `url()` returns the same URL and changes nothing |
| Render.UrlSpec | templatetags/charts.py:131-172 | `url()` leaves a consistent chart: the state after the range, encoding and defaults steps, whether or not serialising the query then raises; its URL is described by UrlShape, UrlKeepsOptions and UrlInfersRange |
| Render.MapUrlOnce | googlecharts/templatetags/charts.py:105-106 | after one successful `url()` on a map chart, a second call raises for the missing `_mapdata` |
| Render.SizeAfterUrl | templatetags/charts.py:149-151 | after a successful `url()`, `chs` holds the value set before, or `200x200` by default |
| Render.RangeOutcomes | templatetags/charts.py:604-613 | of `RangeAfter`, the model of `chart_data_range`: the range changes only to both converted bounds or, for `auto`, back to inferred; a zero or empty lower bound changes nothing; only a non-number, non-string bound raises |
| Render.RangeFromNumbers | templatetags/charts.py:606-611 | of `RangeAfter`: two non-zero numbers become the range |
| Render.RangeAuto | templatetags/charts.py:606-613 | of `RangeAfter`: `auto` alone resets the range; `auto` with an upper bound leaves it unchanged |
| Render.Recolored | templatetags/charts.py:114-122 | the recoloured list has as many entries as `chco` has colours |
| Render.RecolorHighlights | templatetags/charts.py:116-122 | exactly the entries equal to the override get the first colour, all others `eeeeee`; with distinct colours at most one is highlighted |
| Render.RecoloredSplits | templatetags/charts.py:122 | the recoloured `chco` splits back into the recoloured list |
| Render.Override | templatetags/charts.py:112-122 | `chco` is read unconditionally; without an override nothing changes; with one, `chco` must be a string and is replaced by the recoloured list |
| Render.UrlStateIgnoresColors | templatetags/charts.py:131-172 | `url()` leaves `chco` where it was: recolouring before or after gives the same state |
| Render.RestoredIsUrl | templatetags/charts.py:122-124 | recolouring, `url()` and restoring leave the chart as `url()` alone leaves it |
| Render.UrlKeepsColors | templatetags/charts.py:131-172 | `url()` leaves the value of `chco` as it was |
| Render.ColorsBack | templatetags/charts.py:124 | putting the original `chco` back after recolouring restores the options exactly |
| Render.ImgRestoresColors | templatetags/charts.py:111-129 | after a successful `img()` the chart is exactly as after `url()`, so `chco` equals its prior value |
| Render.ImgSpec | templatetags/charts.py:111-129 | `img()` leaves a consistent chart, the state after recolouring, `url()` and restoring `chco`, and succeeds only when that `url()` does |
| Render.ImgSize | templatetags/charts.py:125 | width and height are the halves of the set size, or 200 by 200 by default |
| Charts.RecolorList | templatetags/charts.py:116-122 | the override loop computes the recoloured list |
| Charts.Chart.constructor | templatetags/charts.py:94-102 | a new chart has no options, no data, no axes, no range and no alt text |
| Charts.Chart.Clone | templatetags/charts.py:104-109 | a clone is a fresh chart with the same options, datasets and axes, no range and no alt text |
| Charts.Chart.AddDatasets | templatetags/charts.py:63 | `datasets.extend` appends the resolved datasets and changes nothing else |
| Charts.Chart.AddAxis | templatetags/charts.py:67 | `axes.append` appends the axis and changes nothing else |
| Charts.Chart.ApplyOption | templatetags/charts.py:242-244 | the options become the merge of the callback's keys; a raising callback leaves them unchanged |
| Charts.Chart.ApplyMetadata | templatetags/charts.py:600-617 | arguments that do not bind raise; `chart-alt` sets the alt text; `chart-data-range` sets the range as `chart_data_range` decides |
| Charts.Chart.MapData | googlecharts/templatetags/charts.py:105-106 | the map step, in place |
| Charts.ScanExtremes | templatetags/charts.py:133-136 | the one-pass minimum and maximum over the non-empty datasets are exactly the extremes of the data |
| Charts.Chart.FindRange | templatetags/charts.py:133-136 | with no range set, the chart takes the inferred range or raises on empty data; a set range is left alone |
| Charts.Chart.FillDefaults | templatetags/charts.py:149-151 | the defaults loop fills in exactly the missing defaults |
| Charts.Chart.UrlQuery | templatetags/charts.py:154-170 | the base, the query string, the data and the axis part form the URL |
| Charts.Chart.Url | templatetags/charts.py:131-172 | `url()` in place: the new state and the result are those of the `url()` specification |
| Charts.Chart.Img | templatetags/charts.py:111-129 | `img()` in place: the new state and the tag are those of the `img()` specification |
| Charts.Chart.ImgFor | templatetags/charts.py:125-127 | the tag's width and height are the two halves of `chs`; alt text appears only when it is truthy |

## Left out

- The Django template machinery is not modelled, because it is glue:
  - tag parsing;
  - `Node.render`;
  - variable resolution, including `resolve_arguments`;
  - writing `_`-prefixed options into the context;
  - `register.tag`.

  Directive arguments are resolved values. An unresolvable dataset variable
  is `None` in `Datasets.ResolveDataset`.
- `chart_auto_colors` and the `_final_color_map` loop are not modelled. They
  are floating-point HSV arithmetic through `colorsys`. The override colour
  reaches `img()` as a parameter.
- `chart_markers` (the `chart-makers` tag) is not modelled. It subtracts
  strings and names an undefined `data_point`, so it raises on every
  well-formed entry.
- String-to-number conversion (`safefloat`, `float(str)`) is not modelled.
  It is the parameter `parse`.
- `str()` of a float in `encode_text` is not modelled. It is the parameter
  `show`. `Value.Num` carries the text Python prints for it.
- HTML escaping, `mark_safe` and the `<img ...>` markup are not modelled.
  `ImgTag` carries the URL, the width, the height and the alt text unescaped.
- `smart_str` is the identity on text. Unicode encoding is not modelled.
- `Render.MapStep` accepts only numbers in `_mapdata`; any other entry raises
  `TypeMismatch` at once. Python appends the list as it is. With a range set
  by `chart-data-range`, a `None` entry is then encoded as `__`
  (googlecharts/templatetags/charts.py:578-582) and the URL is built; a
  numeric string goes through `float` in `norm`; other entries take part in
  Python 2's mixed-type comparisons. The model's datasets hold numbers only,
  so these URLs are not modelled.
- `Quoting.EncodeItem` raises `TypeMismatch` for every option value that is
  not a string. Python 2's `quote_plus` converts nothing either: a number or
  `None` raises `TypeError` and a non-empty list raises `AttributeError`. The
  one difference is an empty list or dictionary, which `quote_plus` returns
  unchanged and `"%s=%s"` prints as `k=[]` or `k={}`; the model raises there.
  Such values reach the query through the callbacks that pass an argument
  through unconverted: `chart_type` for a name not in its table
  (googlecharts/templatetags/charts.py:297), the one-argument `chart_size`
  (:312) and `chart_map_area` (:432-433), and the googlecharts copy's
  `_mapdata` on a chart that is not a map.
- `Strings.Format` supports only `%s` and `%%`, the two conversions the axis
  templates use. Any other `%` raises.
- `Strings.Repr` quotes a string as `'...'` and nothing more. Python 2 prints
  a template's unicode string as `u'...'`, switches to double quotes when the
  text holds `'`, escapes control and non-ASCII characters, and prints a
  float with `repr` precision where the model reuses its `str` text. This
  reaches the URL only when a list or dictionary goes through `%s` or
  `smart_join`, for example a list variable given to `chart-colors`.
- `Strings.DictKeys` skips a dictionary key that is a list or a dictionary;
  Python cannot hash such a key, so no real dictionary has one. Tuples are
  not modelled (`Value` has no tuple), so a tuple key, which Python would
  flatten into its items, is not covered.
- `AxisNode.get_axis` returning `None` for an unresolvable side is not
  modelled. The side is given as a resolved value.
- Clone isolation holds by construction. The copied containers are values,
  so `Charts.Chart.Clone` states only that the clone is fresh and what it
  holds.
- `Charts.Chart.Url`, `Charts.Chart.Img`, `Charts.Chart.ApplyOption` and the
  other state-changing methods are tied to `Render` functions through
  `old(...)`. The properties are proved about those functions.
- `Codec.NormApproximateInverse`: states the half-step error bound only for
  values inside a sane range. Outside it the level can leave 0..4095;
  `Codec.TableEntry` then wraps levels -4096..-1 to the end of the table as
  Python's negative indices do, and raises `IndexOutOfRange` for the levels
  where Python raises `IndexError`, so no level read back is promised.
- `Directives.ChartMapArea` has no contract of its own. `chart-map-area`
  only stores its argument under `chtm`, and `Directives.Callback` covers its
  arity.
