# EyeCheck-Flask: the detection post-processor, the request guard and the image hand-off

EyeCheck-Flask is a small web service. It runs an eye-detection model on an
uploaded picture, returns the detections as JSON, and serves the annotated
picture once from the system temporary directory. This project models three parts of
`app.py` in Dafny and proves their properties.

- The **post-processor** of `tflite_detect_image`. It takes the model's three
  parallel outputs (boxes, classes and scores) and does the following:
  - keeps the slots whose score is strictly above the threshold;
  - converts each kept box to pixels, with one-sided clamps and truncation
    toward zero;
  - names each kept slot with `labels[int(cls)]`;
  - sorts the detections by confidence, highest first, with a stable sort;
  - with one or two detections, rewrites the labels in place as
    `left_eye`/`right_eye`.
- The **request guard** of `POST /detect`. A missing `image` field gives a 400
  with "No image part". An `image` that decodes to no bytes gives a 400 with
  "No selected image". The endpoint's threshold is 0.5.
- The **single-use image store**. A file written by a detection is served by
  the first `GET /image/<name>` and removed. A second request, or a request
  for a name that is not there, gets 404 "File not found".

Modules:

- `Detections` (detections.dfy) holds the values and the per-slot helpers:
  - Python's `int()` as `Trunc`;
  - the pixel box;
  - label lookup with Python list indexing, where indices from `-len` to
    `len-1` are valid and any other index is an `IndexError`, modelled as
    `None`.
- `Filtering` (filtering.dfy) holds the filtering loop. `FilterDetections` is
  a `while` loop. It is proved against the specification function
  `Filtered`, which is `Collect` applied to `Kept`.
- `Ordering` (ordering.dfy) holds `sorted(..., reverse=True)`. It is modelled
  as an insertion sort that puts each element before the first element whose
  confidence is not above its own. This makes it stable.
- `EyeLabels` (eyelabels.dfy) holds the eye rule. `Relabeled` is the rule as a
  function on sequences. `RelabelEyes` applies it in place on an array.
- `PostProcessor` (postprocess.dfy) holds the whole pipeline. The method
  `PostProcess` is proved equal to the function `PostProcessed`. The
  properties callers rely on are proved about that function.
- `ImageStore` (imagestore.dfy) holds the system temporary directory the
  images pass through. It is a class whose `files` map the methods update.
- `Endpoint` (endpoint.dfy) holds the guard and one request through
  `/detect`, followed by fetches of its image.

In four places the model follows the code where a reader might expect
otherwise:

- The clamps are one-sided: `max(1, ·)` on the minima and `min(size, ·)` on
  the maxima. Nothing orders the corners, so `xmin <= xmax` is not claimed.
  `ClampIsOneSided` exhibits a reversed box.
- Coordinates are truncated toward zero, not rounded.
- A negative class index within range selects a label from the end of the
  list, as Python indexing does. It does not fail.
- With two detections whose centres are equal, the first one becomes
  `right_eye`. The first one is the more confident, or the earlier one in the
  model output when the confidences are equal.

## Model

| member | source | states |
|---|---|---|
| Detections.Trunc | app.py:60-63 | `int()` of a float truncates toward zero: the result lies within one unit of the argument, on the zero side |
| Detections.ClampLow | app.py:60-61 | `int(max(1, v))` is at least 1; it is the truncation of v when v >= 1 and exactly 1 otherwise |
| Detections.ClampHigh | app.py:62-63 | `int(min(size, v))` is at most size; it is the truncation of v when v <= size and exactly size otherwise |
| Detections.ToPixelBox | app.py:60-63 | each pixel box has 1 <= xmin, 1 <= ymin, xmax <= imW and ymax <= imH |
| Detections.ClampIsOneSided | app.py:60-63 | the clamps do not order the corners: the fractions (xmin 0.75, xmax 0.25) on a 100-pixel image give xmin 75 and xmax 25 |
| Detections.LookupLabel | app.py:64 | `labels[int(cls)]` succeeds exactly when the truncated index lies in [-len, len); a non-negative index selects from the front and a negative one from the back |
| Detections.Labelled | app.py:64 | slot i has a label exactly when its truncated class index lies in [-len, len), the range where `labels[int(classes[i])]` does not raise |
| Detections.DetectionAt | app.py:64-69 | the detection built from slot i has slot i's score as confidence, the label of slot i's class as name, and slot i's pixel box |
| Filtering.Kept | app.py:58-59 | the kept positions are positions of the score list |
| Filtering.KeptExactly | app.py:58-59 | the kept positions are exactly the slots with score > min_conf, in increasing order |
| Filtering.Collect | app.py:58-69 | building detections for a list of positions succeeds exactly when every position is labelled; on success entry k is the detection of position k; on failure the error names the first unlabelled position |
| Filtering.Filtered | app.py:57-69 | the filtering stage on the whole output: on success one detection per kept slot, on failure an error naming a slot of the output |
| Filtering.FirstUnlabelledIsReported | app.py:58-64 | when kept slot i is unlabelled and every earlier kept slot is labelled, filtering fails with the error naming slot i |
| Filtering.PrefixLabelled | app.py:58-64 | if filtering the first i slots succeeded, every kept slot before i is labelled |
| Filtering.FilteredFromKept | app.py:58-69 | a successful filtering has one detection per kept slot, in slot order, each carrying that slot's score and pixel box |
| Filtering.FilteredCoversKept | app.py:58-69 | every slot with score > min_conf is carried by some filtered detection |
| Filtering.FilteredOkAllLabelled | app.py:58-64 | after a successful filtering every slot with score > min_conf has a label |
| Filtering.FilteredErrIsFirst | app.py:58-64 | a failed filtering names a slot with score > min_conf whose class has no label, and every earlier such slot has one |
| Filtering.EarlierKeptLabelled | app.py:58-64 | when the first k kept slots have labels, every slot above the threshold before the k-th kept slot has one |
| Filtering.KeptAt | app.py:58-59 | every kept position is a slot whose score is above the threshold |
| Filtering.KeptOrder | app.py:58-59 | kept positions are strictly increasing |
| Filtering.KeptExtend | app.py:58-59 | one more loop step appends position i exactly when its score is above the threshold |
| Filtering.CollectExtend | app.py:64-69 | appending a labelled position appends its detection |
| Filtering.FilterDetections | app.py:57-69 | the loop returns the same result as the specification function `Filtered`, including the error for the first unlabelled kept slot |
| Ordering.Insert | app.py:71 | inserting a detection adds it to the multiset of detections |
| Ordering.InsertSorted | app.py:71 | inserting into a list sorted by non-increasing confidence keeps it sorted |
| Ordering.InsertBelow | app.py:71 | inserting a detection under a confidence bound into detections under it keeps every confidence under the bound |
| Ordering.ConsSorted | app.py:71 | a detection whose confidence is at least every other's can go in front of a sorted list and keep it sorted |
| Ordering.SortByConfidence | app.py:71 | the sorted list is a permutation of its input, of the same length, with non-increasing confidences |
| Ordering.WithConfidenceAppend | app.py:71 | picking the detections of one confidence distributes over concatenation |
| Ordering.InsertKeepsTies | app.py:71 | an inserted detection goes before the detections it ties with and does not reorder them |
| Ordering.SortIsStable | app.py:71 | for every confidence, the detections that have it keep their relative order through the sort |
| EyeLabels.Relabeled | app.py:73-87 | the eye rule keeps the length and changes only the name of each detection |
| EyeLabels.CenterX | app.py:75-83 | the horizontal centre (xmin + xmax) / 2 with true division lies between the two x coordinates, whichever order they are in |
| EyeLabels.TwoDetectionsBecomeEyes | app.py:74-81 | with two detections, one is `left_eye` and one is `right_eye`; the left eye's centre is not right of the right eye's; on equal centres the first is `right_eye` |
| EyeLabels.OneDetectionBecomesEye | app.py:82-87 | a single detection is `left_eye` exactly when its centre is strictly left of imW/2, and `right_eye` otherwise |
| EyeLabels.OtherCountsUnchanged | app.py:73-88 | with no detection, or three and more, the detections are unchanged |
| EyeLabels.CenterComparisons | app.py:75-76 | the true-division centre comparisons are the integer comparisons of the sums xmin + xmax |
| EyeLabels.RelabelEyes | app.py:73-87 | rewriting the array in place leaves it equal to the eye rule applied to its old contents |
| PostProcessor.PostProcess | app.py:56-88 | the filtering loop, the sort and the in-place eye rule together compute `PostProcessed` |
| PostProcessor.PostProcessed | app.py:56-88 | the whole post-processor as a function: it fails exactly when filtering fails, with the same error, and otherwise returns one detection per kept slot |
| PostProcessor.RelabelSorted | app.py:73-87 | copying the sorted list into an array and relabelling it in place yields the eye rule applied to the list |
| PostProcessor.PostProcessFailsOnFirstUnlabelled | app.py:58-64 | post-processing fails exactly when some kept slot has no label, and then the error names the first such slot |
| PostProcessor.PostProcessSound | app.py:56-88 | on success there is one detection per kept slot, confidences are non-increasing, each is above min_conf, and every box satisfies the one-sided bounds |
| PostProcessor.PostProcessFromKept | app.py:56-88 | each returned detection carries the score and pixel box of a slot with score > min_conf |
| PostProcessor.SlotOf | app.py:56-88 | for output position k (k below the number of kept slots), returns a slot with score > min_conf; when post-processing succeeds, the k-th returned detection carries that slot's score and pixel box; the slot is where the sort took that detection from, not in general the k-th kept slot |
| PostProcessor.PostProcessCoversKept | app.py:56-88 | each slot with score > min_conf is carried by a returned detection |
| PostProcessor.PostProcessEyeNames | app.py:73-87 | with one or two returned detections, each is named `left_eye` or `right_eye` |
| PostProcessor.PostProcessClassNames | app.py:64-88 | with no returned detection, or three and more, each is exactly the detection built from some kept slot, so it keeps its class label |
| PostProcessor.SortThenRelabelSorted | app.py:71-88 | the eye rule after the sort keeps the length and the non-increasing order of confidences |
| ImageStore.Status | app.py:137-143 | a served image has status 200 and a miss has status 404 |
| ImageStore.Store.constructor | app.py:134 | the image endpoint works on the temporary directory as it finds it, with whatever files are already there |
| ImageStore.Store.Put | app.py:95-98 | writing an image binds its name to its bytes and leaves the other files alone |
| ImageStore.Store.Take | app.py:137-143 | a present name is served with its bytes and removed; an absent name is a miss and changes nothing; afterwards the name is absent |
| ImageStore.PutThenTakeTwice | app.py:137-143 | right after a write, the first fetch serves the bytes (200) and the second misses (404) |
| Endpoint.CheckDetectRequest | app.py:106-114 | a body without "image" is rejected with 400 "No image part"; one whose image decodes to no bytes with 400 "No selected image"; any other is accepted with the decoded bytes |
| Endpoint.EmptyImageRejected | app.py:111-114 | an empty "image" string is rejected with "No selected image" |
| Endpoint.HandleDetect | app.py:103-128 | a rejected request changes nothing; an image the model cannot read fails and stores nothing; otherwise the reply is the post-processed detections at threshold 0.5, with the rendered image stored under the new temporary name (required to be absent, as a new temporary file is), or the label error with nothing stored |
| Endpoint.DetectThenFetchTwice | app.py:118-143 | after a successful detection the image URL serves the rendered image once and then misses; in every case the directory ends as it was before the request |

## Left out

- Reading and resizing the image with PIL, the float32 normalisation, and the TFLite model are left out. They become the `infer` parameter, which yields the model's output, or nothing for bytes that are not an image. The image size is given as `imH` and `imW`.
- Scores, fractions and classes are exact reals. float32 rounding and NaN scores are not modelled.
- Reading the label file is left out. The labels are a parameter.
- Drawing the boxes and the "name: NN%" captions with cv2, and encoding the JPEG, are left out. They become the `render` parameter.
- The temporary file's fresh name comes from the operating system. It becomes the `tempName` parameter, and the full image URL with the request host is not built.
- Base64 decoding is the `decode` parameter, a total function. `b64decode` without validation drops characters outside the alphabet, so a string such as `!!!!` decodes to no bytes and is covered; strings it rejects (bad padding, non-ASCII) give a 500 and are not modelled.
- The model takes the body as a map from strings to strings. Bodies that are not JSON objects (arrays, strings, numbers, `null`), and non-string `image` values, are not modelled; the service answers 400 "No image part" or 500 depending on the value, since `'image' not in data` is then a membership or substring test or raises.
- Endpoint.HandleDetect: the unreadable image and the label error are the service's 500 replies (an exception re-raised by `future.result()`); the model keeps them as distinct reply kinds and does not build the status or the error page. An exception raised while drawing or writing the JPEG is not modelled.
- ImageStore.Store: the model holds the files of the temporary directory as a map from names to bytes. The real endpoint serves and removes any existing file in the shared system temporary directory, including files other processes put there. A name that is a directory passes the existence check and then fails in `send_file` with a 500; directories are not modelled.
- ImageStore.Store.Take: a take is one atomic step. In the service the existence check, `send_file` and `os.remove` are separate steps, so two concurrent fetches of one name can both pass the check. The "second take misses" property holds only for fetches that run one after the other.
- The `min_conf=0.1` default of `tflite_detect_image` is not modelled: its only caller passes 0.5, so the threshold is always a parameter (`EndpointMinConf` at the endpoint).
- The thread pool that runs detection is left out. It runs one job and waits for it, so it changes no result.
- Logging, CORS, the index page and the file system's path joining are left out.
- Filtering.Filtered, PostProcessor.PostProcessed: both require the model's three outputs to have equal length, which is the detector's own guarantee.
- Filtering.Kept: its own contract states only that the positions are in range. The full characterisation is the separate lemma `KeptExactly`.
- EyeLabels.Relabeled: its own contract states only that names alone change. The rule itself is stated by the three lemmas that follow it.
