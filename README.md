# Classify page core, modelled in Dafny

The Classify page of this disease-identification web app works in two stages.
A YOLO detector finds the region of interest in a photo. A MobileNet
classifier then labels the crop. Both networks run in TensorFlow.js, and both
are cached in IndexedDB. Almost all of the page is React markup and calls into
those libraries. This project models the small rules the page applies around
the two network calls:

- **Top-K ranking** (`getTopKClasses`). Module `Ranking` pairs each score with
  its index and models `Array.prototype.sort` as a stable insertion sort. It
  also defines a sort-free top-K characterisation (`IsTopK`) and proves that
  the sorted prefix meets it and that it is unique. Module `TopK` holds the
  page's loops as methods: they build the records, sort them, copy the first
  `topK` into the parallel value and index arrays, and label each index.
- **Detector geometry** (module `Detection`). This covers the trailing-edge
  square padding, the decoding from centre/size to corners, the crop ratio,
  and the crop rectangle built from the first surviving box. The crop keeps
  the source's swap of width and height. A lemma pins that swap.
- **Model freshness** (module `ModelUpdate`). This covers the test of the
  cached save date against the server's `last_updated`, and a class holding
  the component's update flags. Its methods are the mount-time checks,
  `updateModel`, and the two alert close buttons.

Three behaviours of the code that the model keeps:

- The source never clamps `topK`. When `topK` exceeds the number of scores,
  it reads a missing record and throws. Callers always pass
  `TOPK_PREDICTIONS` (2) with the classifier's full output, so the model
  takes `topK <= |values|` as a precondition.
- The crop is mapped back by dividing by one ratio, and no padding offset is
  subtracted. Because the padding only grows the bottom and right edges, this
  maps a detected corner back to its source pixel. That holds whenever the
  detector's input is 640 x 640, the size the ratio is computed against.
  `Detection.ToDetectorSpace` shifts each axis by its leading pad and scales
  it by 640 over that axis's padded length. `Detection.RatioIsResizeScale`
  and `Detection.ToDetectorSpace` use the zero leading pads and the square
  padded shape to show that this is plain scaling by the ratio.
  `Detection.CropRecoversOrigin` then shows that the crop starts at the
  source pixel.
- The page renders only the classifier's update alert. A stale detector sets
  its flags, but nothing is ever shown for it (`CheckDetector`, `Mount`).

## Model

| member | source | states |
|---|---|---|
| `Ranking.Pairs` | src/pages/Classify.js:486-489 | record `i` holds `values[i]` and index `i`, one per score |
| `Ranking.Insert` | src/pages/Classify.js:490-492 | inserting a record adds exactly that record (multiset) and one to the length |
| `Ranking.StableSortDesc` | src/pages/Classify.js:490-492 | the sort returns a permutation of its input (same multiset, same length) |
| `Ranking.Ranked` | src/pages/Classify.js:486-492 | `valuesAndIndices` after the sort: one record per score, a permutation of the index-ordered records |
| `Ranking.InsertInRankOrder` | src/pages/Classify.js:490-492 | a record later in the input goes behind every record with an equal or larger value, which keeps the rank order |
| `Ranking.SortInRankOrder` | src/pages/Classify.js:490-492 | records listed by index come out by descending value, with equal values in ascending index order (stability) |
| `Ranking.RankedEntries` | src/pages/Classify.js:486-492 | the sorted records hold every score of `values` exactly once, each at its own valid index, in rank order |
| `Ranking.RankedPrefixIsTopK` | src/pages/Classify.js:490-498 | the first `k` sorted records are a top-K: valid, rank-ordered, and every score left out ranks after every score taken |
| `Ranking.TopKNextPrecedes` | src/pages/Classify.js:490-498 | two top-K results that agree up to position `i` have equal or rank-ordered records at `i` |
| `Ranking.TopKUnique` | src/pages/Classify.js:490-498 | any two sequences meeting the top-K properties are equal, so every stable descending sort gives the same result |
| `Ranking.TopKAgreeFrom` | src/pages/Classify.js:490-498 | two top-K results that agree on a prefix agree everywhere |
| `TopK.SelectTopK` | src/pages/Classify.js:485-498 | exactly `topK` entries; each is `values[index]` at a valid, distinct index; values are non-increasing; ties keep index order; no score left out is larger, and a tied one left out has a later index |
| `TopK.CopiedTopK` | src/pages/Classify.js:493-498 | parallel arrays copied from a top-K have all of the properties above |
| `TopK.ClassName` | src/pages/Classify.js:503 | the class name exists exactly when the index is a key of the class table, and it is that key's name |
| `TopK.GetTopKClasses` | src/pages/Classify.js:485-508 | `topK` predictions, each the class name and the percentage score of the matching ranked record, with probabilities non-increasing |
| `TopK.RankingExample` | src/pages/Classify.js:485-498 | scores [0.1, 0.7, 0.05, 0.15] with K = `TOPK_PREDICTIONS` (2) rank as (0.7, class 1) then (0.15, class 3) |
| `Detection.Max` | src/pages/Classify.js:271 | `Math.max`: at least both arguments and equal to one of them |
| `Detection.Padded` | src/pages/Classify.js:272-276 | the shape `tf.pad` produces: non-negative pads never shrink an axis, and zero channel pads keep the channel count |
| `Detection.SquarePad` | src/pages/Classify.js:270-276 | leading pads are 0; trailing pads are non-negative; at least one is 0; the result is square |
| `Detection.SquarePadShape` | src/pages/Classify.js:270-276 | the padded image is `max(h, w)` on each side, with the channel count unchanged |
| `Detection.DecodeBox` | src/pages/Classify.js:291-306 | the corners keep the anchor's centre and extents (`x2 - x1 = w`, `y2 - y1 = h`) and are ordered when `w, h >= 0` |
| `Detection.EncodeBox` | src/pages/Classify.js:291-306 | corner to centre/size is a right inverse of decoding |
| `Detection.EncodeDecode` | src/pages/Classify.js:291-306 | decoding is a left inverse too: no anchor information is lost |
| `Detection.Min` | src/pages/Classify.js:329 | `Math.min`: at most both arguments and equal to one of them |
| `Detection.Ratio` | src/pages/Classify.js:327-329 | the ratio is positive, and scaling the image by it fits the 640 square and touches one side |
| `Detection.CropFromDetections` | src/pages/Classify.js:332-335 | no crop exactly when no box survived; otherwise crop x, y and w, h times the ratio give the first box's x1, y1, its y-extent and its x-extent |
| `Detection.RatioIsResizeScale` | src/pages/Classify.js:270-279 | the ratio times each side of the padded image (`tf.pad` with the square padding) is 640, the detector's resize scale |
| `Detection.ToDetectorSpace` | src/pages/Classify.js:270-279 | a source point, shifted by each axis's leading pad and resized from the padded image to the 640 square, is the point scaled by the crop ratio; a point of the image lands inside the square |
| `Detection.ResizeAxis` | src/pages/Classify.js:272-279 | one axis of pad-and-resize: with no leading pad it is scaling by a ratio that takes the padded length to 640, and a coordinate within the axis stays within 640 |
| `Detection.CropRecoversOrigin` | src/pages/Classify.js:332-333 | a box whose corner is a source point mapped by pad-and-resize is cropped starting at that point |
| `Detection.CropSwapsExtents` | src/pages/Classify.js:334-335 | the crop width is the box height and the crop height is the box width, so they differ for a non-square box |
| `ModelUpdate.UpdateAvailable` | src/pages/Classify.js:95 | an update is flagged iff the server gave a timestamp and the cached copy was saved before it |
| `ModelUpdate.UpdateFlags.constructor` | src/pages/Classify.js:71-78 | all update flags start false |
| `ModelUpdate.UpdateFlags.AlertShown` | src/pages/Classify.js:567-571 | the alert shows only when an update is available; in a valid state it shows exactly when its alert flag is set |
| `ModelUpdate.UpdateFlags.UpdateButtonShown` | src/pages/Classify.js:576 | the Update button shows only inside the alert |
| `ModelUpdate.UpdateFlags.CheckClassifier` | src/pages/Classify.js:95-103 | a stale classifier sets its availability and alert flags; nothing else changes; alert implies available still holds |
| `ModelUpdate.UpdateFlags.CheckDetector` | src/pages/Classify.js:128-136 | a stale detector sets only its own two flags, and whether the alert is shown does not change |
| `ModelUpdate.UpdateFlags.UpdateModel` | src/pages/Classify.js:238-257 | when every download and save succeeds: no update available, no alert or download pending, both success flags set; when one rejects: the downloading flags raised so far stay up, every other flag is unchanged, and the alert stays on its spinner with no Update button |
| `ModelUpdate.UpdateFlags.DismissUpdateAlert` | src/pages/Classify.js:572 | only `showModelUpdateAlert` is cleared |
| `ModelUpdate.UpdateFlags.DismissUpdateSuccess` | src/pages/Classify.js:597 | only `showModelUpdateSuccess` is cleared |
| `ModelUpdate.MountThenAct` | src/pages/Classify.js:238-257 | after mount and one action: a successful update hides the alert and reports success; a failed one leaves a stale copy's alert up with no button; closing the alert hides it and leaves the update available |
| `ModelUpdate.Mount` | src/pages/Classify.js:82-157 | after mounting, the alert shows iff the classifier's cached copy is older than the server's timestamp, whatever the detector check found |

## Left out

- `TopK.SelectTopK`: scores are exact reals. Both call sites pass the classifier output as read by `logits.data()`, which is already a `Float32Array`, so the scores are single-precision values from the start; the model does not capture that, nor that the percentage (`* 100`) is then a double-precision multiplication.
- `TopK.GetTopKClasses`: the probability is the score times 100 as a real. `toFixed(2)` rounding and the conversion to a string are floating-point formatting and are left out.
- `Detection.CropFromDetections`: with no surviving box, the source computes NaN coordinates; the model returns None. The webcam path's `|0` truncation to integers is also left out. That path's image is 640 x 640, so its ratio is 1.
- `Detection.DecodeBox`, `Detection.Ratio` and `Detection.CropFromDetections` compute in exact reals. The source computes the boxes in float32 tensors and the crop in float64 numbers, so equalities such as `x2 - x1 == w` and `crop.x * ratio == b.x1` hold there only up to rounding.
- `Detection.RatioIsResizeScale`, `Detection.ToDetectorSpace` and `Detection.CropRecoversOrigin` assume the detector's input is 640 x 640. The source resizes to the shape read from `yoloModel.inputs[0].shape` but divides by the literal 640. With any other input size, the crop origin would not map back to the source pixel.
- `Detection.CropFromDetections` and `Detection.Ratio` require positive width and height. A zero-sized canvas would make the source divide by zero, and the tensor pipeline cannot handle an empty image anyway.
- `ModelUpdate.UpdateAvailable`: the server timestamp is either absent or a parsed time. A `last_updated` string that is present but fails to parse yields NaN in the source, and that flags an update. The model does not capture this.
- The model does not implement non-max suppression (`tf.image.nonMaxSuppressionAsync`, with limits 500, 0.45 and 0.2). It is a library call. The boxes that survive it are an input sequence in score order.
- All other TensorFlow.js work is left out: `fromPixels`, `pad` on pixel data, `resizeBilinear`, the `/255` and `/127 - 1` normalisation, `execute`/`predict`, `transpose`, and the per-anchor `max`/`argMax` of class scores (whose class result the page never uses). Only the geometry and the shapes are modelled.
- All I/O is left out: IndexedDB, `loadLayersModel`/`loadGraphModel`, `model.save`, the `fetch` of `/model_info` and `/yolo_model_info`, the webcam, canvases, and `drawImage`. The model keeps only the timestamps they yield (`dateSaved` is None when the cache read failed) and the rectangle handed to `drawImage`/`slice`.
- `updateModel` assigns both downloaded models to `this.model`, and the mount fallback path stores the detector there too. These are handle assignments to foreign objects, so they are outside the model. `UpdateModel` models only the flags; which await rejects is its `outcome` parameter. That line 245 loads the detector with `loadLayersModel` is a library matter the model does not decide.
- The `async`/`await` ordering, tensor disposal, scope management, and the intermediate render states between `setState` calls are runtime concerns.
- `src/App.js`, `src/components/LoadButton.js` and `src/pages/NotFound.js` are presentational. So are the tab, panel and file-picker handlers in `src/pages/Classify.js`.
- `MODEL_CLASSES` (`src/model/classes`) is not part of this model. It is a parameter: a map from index to class name.
