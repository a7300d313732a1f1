# Plante: the region stage, labels, calibration and CSV rows in Dafny

Plante measures the leaf area of plant samples laid out on a grid. OpenCV finds the coloured contours in a photograph. `process_image` then turns those contours into labelled, measured regions. This project models that region stage from the contours onward, plus the small pieces beside it:

- the label presets (`choose_label`);
- the calibration division (`compute_conversion_factor`);
- the split of the report text into CSV rows (`export_to_csv`);
- the size computation of `resize_image_aspect_ratio`.

Modules:

- `Results`: `Option` and `Result`, used for Python's exceptions as values.
- `Python`: Python slicing `s[lo:hi]`, including negative and out-of-range bounds. Lists and NumPy rows and columns both use it.
- `Sorting`: the stable sort that `list.sort` and `sorted` perform. It is proved ordered, a permutation and stable. `reverse=True` is the sort by the negated key.
- `Labels`: `choose_label` and its two preset tables.
- `Utils`: the conversion factor, with a class holding the module global it writes, and the line-to-row split of the CSV export.
- `Regions`: the stage, step by step. Each loop of `process_image` is a method whose `ensures` ties it to a specification function. `Regions.Process` composes those functions, and `Regions.ProcessImage` runs the same steps as statements.
- `Pipeline`: properties of the whole stage:
  - which error it raises and when;
  - how many regions it returns and which tags they carry;
  - the reading order of the regions;
  - how the areas follow the calibration;
  - how the report becomes CSV rows.
- `Resize`: the new size `int(side * min(max_w / w, max_h / h))`, computed over exact reals rather than floats, with truncation.

The stage's inputs:

- The contours, each given by its `contourArea` and `boundingRect`.
- The colour-isolated image, as rows of pixels. Each pixel is the list of its channel values.
- The conversion factor, the label mapping, `max_regions`, `grid_size` and `num_columns`.
- A function `formatArea` that renders an area as text.

Notes where the code and its description differ. The model follows the code:

- **Top-N cut.** The ranking keeps a literal 24 rectangles (image_processing.py:77). `max_regions` is applied later, after the regions have been put in reading order (image_processing.py:122). It therefore keeps the first regions in reading order, not the best-scoring ones.
- **Area threshold.** The filter compares with the literal `1000` (image_processing.py:60). `min_area` is accepted and not used.
- **No error for few contours.** Having fewer contours than `max_regions` raises no error. Only an empty list of kept rectangles fails, in `max` (image_processing.py:80).
- **Labels come first.** Labels are looked up before the grid is created, so a missing label wins over a bad grid shape.
- **Preset 2 is partial.** It covers ranks 1..5 only. A sixth region raises `KeyError(6)` (`Pipeline.Preset2FailsOnSixthRegion`).
- **Resize can enlarge.** `resize_image_aspect_ratio` scales the image up when it is smaller than the box (`Resize.NewSizeEnlargesSmallImage`). It does not leave the image at its own size.
- **Grid shape.** `plt.subplots` with one row or one column returns a one-dimensional array of axes, and a single axes object when both are 1. In every such case `axes[row, col]` raises. The model reports this as `AxesNotGrid`, and a non-positive shape as `SubplotsError`.
- **Area counts channels.** The variable is named `non_zero_pixels` (image_processing.py:115), but `np.count_nonzero` on the height×width×3 crop counts non-zero channel values. A pixel with all three channels non-zero counts three times. An area equals the pixel count times the squared factor only when every foreground pixel has exactly one non-zero channel (`Regions.CountsChannelsNotPixels`).
- **Trailing row.** The export button passes the display widget's text, and Tk ends that text with a newline. The CSV therefore ends with one empty row after the region rows (`Pipeline.ProcessWidgetRows`). Called directly on an empty report, `export_to_csv` writes one row holding an empty cell.

## Model

| member | source | states |
|---|---|---|
| Python.TakePrefix | image_processing.py:77 | `s[:k]` for `k >= 0` is the prefix of length `min(k, len(s))` |
| Python.TakeNegative | image_processing.py:122 | `s[:k]` for a negative `k` drops the last `-k` elements, or all of them |
| Python.SliceInRange | image_processing.py:69 | a slice whose bounds are in range is the plain sub-sequence |
| Python.SliceLength | image_processing.py:97 | a slice is never longer than the sequence; for non-negative bounds its length is the clipped difference |
| Sorting.SortByIsSorted | image_processing.py:74 | the stable sort is ordered by its key |
| Sorting.SortByPermutation | image_processing.py:100 | the sort is a permutation of its input, of the same length |
| Sorting.SortByStable | image_processing.py:104 | elements with equal keys keep their relative order (Python's sort is stable) |
| Sorting.SortBySortedInput | image_processing.py:104 | an input that is already ordered is left unchanged |
| Sorting.InsertPermutation | image_processing.py:74 | one insertion step adds exactly its element to the multiset |
| Sorting.InsertSorted | image_processing.py:74 | inserting into an ordered sequence keeps it ordered |
| Sorting.InsertWithKey | image_processing.py:74 | an insertion puts the element before every element with the same key |
| Regions.KeptRectsCharacterised | image_processing.py:58-62 | a contour's rectangle is kept exactly when its area is strictly above 1000, and kept rectangles stay in contour order |
| Regions.FindRectangles | image_processing.py:55-62 | the loop collects exactly the kept rectangles, in contour order |
| Regions.ScoreRectangles | image_processing.py:65-71 | one score per rectangle, in order: its rectangle plus the sum of all channels of the isolated pixels in `img[y:y+h, x:x+w]` |
| Regions.RankedProperties | image_processing.py:74 | the ranking is a permutation of the scores with non-increasing sums, and equal sums keep their contour order |
| Regions.TopRectsPrefix | image_processing.py:77 | the top rectangles are the first `min(24, n)` rectangles of the ranking |
| Regions.MaxSquareSize | image_processing.py:80 | fails exactly on an empty list; otherwise the result bounds every `w` and `h` and equals `max(w, h)` of some rectangle |
| Regions.SquareOf | image_processing.py:87-94 | the square is centred on `(x + w//2, y + h//2)`, and its side is `2*(s//2)`: `s` when even, `s - 1` when odd |
| Regions.CentreRegions | image_processing.py:83-97 | region `k` is the crop of the centred square, numbered `k + 1`, with its centre |
| Regions.CropInside | image_processing.py:97 | a square inside the image crops to exactly its own height and width |
| Regions.SortRows | image_processing.py:100-104 | the y-sort followed by the per-block x-sort computes the row order |
| Regions.RowOrderPermutation | image_processing.py:100-104 | the row order is a permutation of the regions |
| Regions.RowOrderBlock | image_processing.py:103-104 | each block of 4 holds the same regions as that block of the stable y-order, ordered by non-decreasing centre x |
| Regions.RowOrderRows | image_processing.py:99-104 | within a block, centre x does not decrease; no region of a block has a larger centre y than a region of a later block |
| Regions.Renumber | image_processing.py:107-108 | the region at position `i` gets number `i + 1`, and its centre and crop are unchanged |
| Regions.CountsChannelsNotPixels | image_processing.py:115 | `np.count_nonzero` of a crop counts non-zero channel values: a single pixel `[60, 120, 40]` counts 3, and a pixel with one non-zero channel counts 1 |
| Regions.MeasureRegions | image_processing.py:112-118 | each area is the crop's count of non-zero channel values times the squared factor; everything else is carried over |
| Regions.AreaScaling | image_processing.py:115 | multiplying the factor by `k` multiplies an area by `k*k` |
| Regions.FirstMissing | image_processing.py:125-126 | the position of the first region without a label: every earlier number has one, and the number there has none |
| Regions.ApplyLabels | image_processing.py:125-127 | KeyError exactly when some number is missing, naming the first missing one; otherwise region `i` carries `label_mapping[number]` |
| Regions.CellAt | image_processing.py:133-134 | `(idx // num_columns, idx % num_columns)` recombines to `idx`, and the column is below `num_columns` |
| Regions.LayOutGrid | image_processing.py:130-145 | the loops compute the grid layout, raising at the first region whose row is past the grid |
| Regions.GridIsRowMajor | image_processing.py:132-145 | region `idx` is at row-major cell `idx` inside the grid; the cells after the last region up to `grid_size*num_columns` are blanked; together every cell is used once |
| Regions.ReportOneLinePerRegion | image_processing.py:182 | splitting the report at newlines gives back one line `label: area cm²` per region, in order |
| Regions.ProcessImage | image_processing.py:55-145 | the statement-by-statement stage computes `Regions.Process` |
| Pipeline.ShownIsTwoCuts | image_processing.py:77-122 | cutting any list to its top 24 and then to `[:max_regions]` leaves exactly its first `Shown(found, max_regions)` elements, for either sign of `max_regions` |
| Python.TakeIsPrefix | image_processing.py:122 | `s[:k]` is the prefix up to the clipped bound |
| Pipeline.CandidatesNumbered | image_processing.py:107-122 | after truncation, the region at position `i` carries number `i + 1`, and there are as many as the clipped `max_regions` |
| Pipeline.LabelAllRanks | image_processing.py:125-127 | for regions numbered 1..n, the lookup succeeds exactly when every rank 1..n has a label; otherwise KeyError of the least missing rank |
| Pipeline.ProcessOutcome | image_processing.py:58-145 | the stage fails on `max` exactly when nothing passes the filter; fails with KeyError exactly when some rank up to the shown count is unlabelled, naming the least one; succeeds exactly when labels cover the ranks, both grid sides are at least 2 and the regions fit; on success it returns the shown count of regions tagged `label_mapping[i+1]`, the row-major layout and the report |
| Pipeline.Preset1NeverMissesALabel | config.py:15-23 | with preset 1 the stage never raises KeyError |
| Pipeline.Preset2FailsOnSixthRegion | config.py:24-29 | with preset 2 and more than five regions shown, the stage raises `KeyError(6)` |
| Pipeline.ProcessReadingOrder | image_processing.py:99-122 | the returned regions are in reading order: x within a row of 4, rows top to bottom |
| Pipeline.FirstMissingByNumbers | image_processing.py:125-126 | the first missing label depends only on the region numbers |
| Pipeline.ProcessFactorOnlyAreas | image_processing.py:112-127 | the conversion factor influences nothing but the areas: the same error, or the same regions, tags and layout |
| Pipeline.CandidatesByFactor | image_processing.py:112-122 | under two factors the truncated regions differ in their areas alone |
| Pipeline.ProcessAreas | image_processing.py:115 | every returned area is the crop's count of non-zero channel values times the squared factor |
| Pipeline.ProcessAreaScaling | image_processing.py:115 | calibrating with `k` times the factor multiplies every returned area by `k*k` and changes nothing else |
| Pipeline.ScaledAreas | image_processing.py:115 | regions differing only in area, measured under `cf` and `k*cf`, are related by `ScaleAreas` |
| Pipeline.ProcessReportRows | utils.py:19-20 | `export_to_csv(text_data)` called on the report text itself writes one row `[label: area cm²]` per region, in order; an empty report gives one empty row |
| Pipeline.ProcessWidgetRows | ui_functions.py:110 | the export button passes the display widget's text, which Tk ends with a newline: the CSV gets one row per region, in order, then one empty row (two empty rows for an empty report) |
| Labels.ChooseLabel | config.py:5-32 | succeeds exactly for presets 1 and 2; preset 1 maps exactly ranks 1..24 and preset 2 exactly ranks 1..5, both injectively; any other preset is the invalid-preset error |
| Labels.RankTableProperties | config.py:17-23 | a table of pairwise different tags covers exactly ranks 1..n, and each rank has its own tag |
| Labels.Preset1KeysAndInjective | config.py:17-23 | preset 1 covers ranks 1..24 and its 24 tags are pairwise distinct |
| Labels.Preset2KeysAndInjective | config.py:26-29 | preset 2 covers ranks 1..5 and its tags are pairwise distinct |
| Labels.Preset2HasNoRankAboveFive | config.py:26-29 | under preset 2 no rank above 5 has a tag |
| Utils.ConversionFactor | utils.py:9 | succeeds exactly for a non-zero pixel distance, with `factor * pixel_distance == real_distance`; zero is a division error |
| Utils.Globals.ComputeConversionFactor | utils.py:5-11 | the value returned is the value stored in the global `conversion_factor`; a failed division leaves the global unchanged |
| Utils.SplitPiecesHaveNoSeparator | utils.py:19 | no piece of `text.split('\n')` contains a newline |
| Utils.SplitCount | utils.py:19 | the split has one more piece than the text has newlines, so empty pieces count |
| Utils.JoinSplit | utils.py:19 | joining the pieces with newlines restores the text |
| Utils.SplitJoin | utils.py:19 | splitting a join of newline-free pieces gives the pieces back |
| Utils.SplitNoSeparator | utils.py:19 | a text without newline splits into itself alone |
| Utils.SplitAppend | utils.py:19 | splitting `a + '\n' + b` gives `a`, then the pieces of `b` |
| Utils.SplitTrailingSeparator | utils.py:19 | a trailing newline adds exactly one empty last piece to the split |
| Utils.ExportToCsv | utils.py:13-20 | nothing is written when no file is chosen; otherwise the rows written are one single-cell row per line of the text, in order |
| Utils.RowsRestoreText | utils.py:19-20 | reading the cells of the rows back in order and joining them with newlines gives the text |
| Resize.Trunc | image_processing.py:201-202 | `int(x)` truncates toward zero: floor for non-negative `x`, ceiling for negative `x` |
| Resize.NewSize | image_processing.py:197-202 | fails with a division error exactly when a side of the image is 0 |
| Resize.NewSizeFits | image_processing.py:197-202 | for a non-negative box, the new size fits in the box, one side reaches it, and the aspect ratio holds to within one pixel |
| Resize.TruncKeepsRatio | image_processing.py:201-202 | truncating two proportional non-negative lengths keeps their cross products within one side of each other |
| Resize.ScaleIsSmallerRatio | image_processing.py:199 | the scale is at most both ratios and equal to one of them |
| Resize.NewSizeEnlargesSmallImage | image_processing.py:197-202 | an image no larger than the box is scaled up: both new sides are at least the old ones |

## Left out

- The OpenCV calls are not modelled. These are the colour conversion, `inRange`, `bitwise_and`, `dilate`, `findContours`, `contourArea` and `boundingRect` (image_processing.py:32-61). Their results are inputs: one `(area, x, y, w, h)` per contour, and the isolated image as rows of channel lists.
- Matplotlib rendering is left out. This covers `imshow`, titles, `tight_layout`, the PNG buffer and the PIL conversion (image_processing.py:136-138, 148-155). So is the drawing of squares and labels with `cv2.rectangle` and `putText` (image_processing.py:158-179). The model keeps which subplot each region goes to and which subplots are switched off, and the errors that `subplots` and `axes[row, col]` raise.
- PIL's bicubic resampling (image_processing.py:204) is left out. Only the new size is modelled.
- Resize.NewSizeFits: the clause that one side reaches the box holds over exact reals only. The code computes in floats, where `side * (max / side)` can fall just below `max` before `int` truncates it: a 19×1 image in a 1000×1000 box gets width 999, not 1000. The float result can therefore be one pixel short of the box. The bounds `w <= max_w` and `h <= max_h` are likewise stated over reals.
- Utils.ConversionFactor: `factor * pixel_distance == real_distance` holds of the exact quotient only. In floats it can be off in the last place: `1/49*49` is `0.9999999999999999`.
- Regions.MeasureRegions: `round(…, 4)` and floating point are left out. Areas are exact reals `count * cf * cf`, which is why `Regions.AreaScaling` holds exactly.
- The f-string rendering of a float area is left out. `formatArea` stands for it.
- Utils.Globals.ComputeConversionFactor: the `print` of the factor is left out because it is output only. The `points` global it names is left out because the function never writes it.
- Utils.ExportToCsv: the text the GUI hands over comes from `text_display.get('1.0', tk.END)` (ui_functions.py:110). The widget itself is not modelled: the model takes its text to be the report plus Tk's trailing newline. The Tk save dialog is a parameter: an empty file name means the dialog was cancelled. Quoting by the CSV writer and the file write itself are left out. The method returns the rows that would be written.
- NumPy's summation width is left out. Pixel sums are unbounded naturals. NumPy promotes `uint8` sums to 64 bits, so no realistic image overflows.
- An image whose rows differ in length is allowed by the model. Slicing such an image is still defined.
- Regions.ProcessImage: the loops that update the regions in place work on `seq` values that are reassigned. Python's list object identity is not modelled, but nothing in the stage aliases those lists.
- The GUI helpers in ui_functions.py, Plante.py and setup.py are not part of this model.
