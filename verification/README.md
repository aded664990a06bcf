# Sketch classifier pipeline — a Dafny model

The repository is a small browser page (`script.js`): the user draws on a
canvas, the drawing is shrunk to 28×28 pixels, turned into a
`[1, 28, 28, 1]` tensor and fed to a pretrained classifier, and the page
shows the label of the most probable of eight classes. This project models
the deterministic part of that page and proves what it promises:

- `tensor.dfy` (`Tensor`): a rank-4 tensor as a shape plus a flat row-major
  buffer, and the offset arithmetic that `tf.tensor4d` uses to view a flat
  buffer in four dimensions.
- `pixels.dfy` (`Pixels`): the normaliser of `preprocessImage`. It reads the
  red sample of each pixel of the resampled RGBA buffer (byte `4*i`) and
  computes `(255 - p) / 255`. It then wraps the 784 values as the input
  tensor. `Preprocess` is the source's loop.
- `decision.dfy` (`Decision`): the argmax scan of `predict`. It keeps the
  first strictly greater probability, so ties go to the lowest index.
  `ArgMax` is the loop, `FirstMax` a recursive reference definition, and
  `IsFirstMax` the property that ties them together.
- `labels.dfy` (`Labels`): the fixed eight-entry label table. Index 0 is an
  empty placeholder and is not filtered.
- `surface.dfy` (`Surface`): the `isDrawing` flag and the canvas path as a
  state machine over mouse events.
- `page.dfy` (`Page`): the global state (model loaded or not, pointer
  state), the not-loaded guard, `predict` from preprocessing to the shown
  label, `loadModel`, and the status texts.

Pixel samples are integers in [0, 255]. Tensor values and probabilities
are exact `real`s. The classifier's forward pass is a function parameter
that either yields a non-empty probability vector or fails with an error
message.

## Model

| member | source | states |
|---|---|---|
| Tensor.OffsetInRange | script.js:62 | every in-bounds element of a `[d0, d1, d2, d3]` tensor has its row-major position inside the flat buffer of `d0*d1*d2*d3` values |
| Tensor.Tensor4d | script.js:62 | wrapping a buffer of exactly Size(s) values gives a well-formed tensor of shape s |
| Tensor.OffsetInjective | script.js:62 | two different in-bounds elements never share a flat position, so viewing the buffer in four dimensions merges no values |
| Pixels.Normalize | script.js:58-59 | the normalised value of a sample lies in [0, 1]; it is 0 exactly for white (255) and 1 exactly for black (0) |
| Pixels.DenormalizeNormalize | script.js:58-59 | the sample is recovered from its normalised value, so the inversion and scaling lose no information |
| Pixels.NormalizeAntitone | script.js:59 | a darker sample gives a strictly larger value, and the converse |
| Pixels.Normalized | script.js:56-59 | the flat input has exactly 28*28 = 784 values, each in [0, 1] |
| Pixels.OnlyRedIsRead | script.js:57-59 | two buffers give the same input if and only if their red samples (`Pixels.Red`: byte 4*i, as `data[i * 4]` reads it) agree, so green, blue and alpha are never read |
| Pixels.BlankIffAllZero | script.js:48-59 | a buffer whose every red sample is white gives the all-zero input, and only such a buffer does |
| Pixels.InputLayout | script.js:56-62 | in the `[1, 28, 28, 1]` view, element (0, r, c, 0) is flat value r*28+c, and flat value k sits at row k/28, column k%28 |
| Pixels.InputTensor | script.js:56-62 | the classifier's input has shape `[1, 28, 28, 1]`, a buffer of matching length, and every value in [0, 1] |
| Pixels.Preprocess | script.js:56-62 | the loop fills all 784 slots; the tensor it returns is the normalised input, with element (0, r, c, 0) computed from the red sample of pixel r*28+c |
| Decision.FirstMaxUnique | script.js:84-92 | at most one index is the first maximum, so the decision is fully determined by the probabilities |
| Decision.FirstMax | script.js:84-92 | the recursive scan returns the first maximum: in bounds, no probability exceeds it, every earlier one is strictly smaller |
| Decision.ArgMax | script.js:84-92 | the scan returns an in-bounds index whose probability is `maxProb`, no probability exceeds it, every earlier one is strictly smaller, and it agrees with `FirstMax` |
| Decision.TieGoesToLowerIndex | script.js:88 | of two equal maximal probabilities at i < j, the decision is at most i, never j |
| Decision.FirstMaxCharacterized | script.js:84-92 | the decision is k if and only if k is the first maximum |
| Labels.LabelAt | script.js:95-96 | the shown label is empty exactly for index 0, and for an index inside the table it is one of the table's entries |
| Labels.LabelsDistinct | script.js:4 | the eight table entries are pairwise different, so a label identifies its index |
| Surface.Handle | script.js:16-32 | mousedown sets drawing and starts a path at its point; mouseup clears drawing and keeps the path; mousemove never changes the flag and changes the state exactly when drawing; validity is preserved |
| Surface.RunPreservesValid | script.js:16-32 | along any event sequence, while drawing the current path is never empty |
| Surface.MovesWhileIdle | script.js:23-24 | with the button up, any number of moves leaves the state unchanged |
| Surface.MovesWhileDrawing | script.js:23-28 | while drawing, moves append their points to the path in order and keep drawing on |
| Surface.Stroke | script.js:16-32 | press, drag through some points, release: the path is exactly the press point followed by those points, and drawing is off |
| Page.Predict | script.js:65-96 | "not loaded" exactly when no model is loaded; with a model, it fails exactly when the forward pass fails, with that pass's message; otherwise it shows the first maximum's index, its probability and its table label |
| Page.NotLoadedTouchesNothing | script.js:66-69 | without a model the outcome is "not loaded" whatever the drawing and whatever the forward pass would do |
| Page.StatusText | script.js:66-103 | a failure text starts with "Error: "; a shown text starts with the label |
| Page.NotLoadedTextIsTheGuard | script.js:66-69 | the text "Model not loaded" appears exactly when the guard fired |
| Page.Load | script.js:107-118 | after loading, a model is loaded iff one was before or this load succeeded; the pointer state is untouched |
| Page.GuardHoldsUntilLoaded | script.js:66-69 | from a state without a model, after any mouse events and failed loads, predict reports "not loaded" |
| Page.MouseEventsDriveSurface | script.js:16-32 | on mouse events alone the page's pointer state follows `Surface.Run` exactly and the loaded flag is untouched, so the `Surface` lemmas hold of the page |
| Page.LoadedStaysLoaded | script.js:107-118 | once a model is loaded, no event sequence unloads it |
| Page.WorkedExample | script.js:4-96 | probabilities `[0.1, 0.05, 0.7, 0.05, 0.05, 0.025, 0.0125, 0.0125]` show "airplane", index 2, at 0.7 |
| Page.BlankShowsPlaceholder | script.js:48-96 | a blank drawing, classified all-to-index-0, shows the empty placeholder label at probability 1 |

## Left out

- The canvas resample (`drawImage` with high-quality smoothing, script.js:40-51) is a browser rendering primitive. The resampled RGBA buffer is an input.
- The numeric library calls are foreign and asynchronous: `tf.tensor4d`'s data copy, `model.predict`, `.data()`, `tf.loadGraphModel`. The forward pass is a parameter `Forward`, and loading is a success flag. `Tensor.Tensor4d` models only the shape view.
- Tensor release (`dispose`, script.js:98-99) runs only on the success path, not in a `finally`. No release property is stated because the code does not provide one.
- Confidence formatting `(maxProb * 100).toFixed(1)` is float-to-string rounding. It is the `percent` parameter of `Page.StatusText`.
- Console logging, DOM wiring, the status texts of `loadModel`, the coordinate offset from `getBoundingClientRect`, stroke styling and rendering, and `clearCanvas` (script.js:6-14, 34-37, 74-82, 110-117) are I/O and UI. Points reach `Surface` already surface-local.
- Pixels.Preprocess: values are exact reals. The source stores them in a `Float32Array`, and that rounding is not modelled.
- Decision.ArgMax: the probability vector is non-empty by type (`ProbVector`). On an empty vector the source would leave `maxIndex` at 0 and `maxProb` undefined and show the empty label with "NaN%".
- Decision.FirstMax: probabilities are reals, so there is no NaN. In the source a NaN is never strictly greater, so it is skipped unless it sits at index 0.
- Which events reach `Surface` is up to the browser: the listeners sit on the canvas, so a release outside it is never delivered and `isDrawing` stays true. `Surface.Run` handles only the events it is given.
- Overlapping asynchronous predictions and a prediction racing with model loading are not modelled. Each `Page.Predict` is one atomic call.
