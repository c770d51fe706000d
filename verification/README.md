# Sign-language camera app: frame pipeline and model assets

This project is a Dafny model of the core of a React Native app that
recognises sign-language gestures from the camera. It has two parts.

The camera screen (`app/index.tsx`):

- each resized 224×224 RGB frame is turned a quarter turn by
  `rotateImage90Clockwise`;
- the frame is copied into slot `writeIndex` of a global eight-frame window
  buffer, and the index advances modulo 8;
- every time the index wraps to 0, `runInference` scores the whole window.
  It takes the arg-max score and publishes `labels[k]` when the score exceeds
  0.4 and `k` is not class 0;
- the label list is the labels file split on newlines;
- the frame processor does this only while the `classificationOn` gate is
  armed.

The model asset provisioner (`app/utils/fileUtils.ts`):

- `ensureModelsDir` creates the models directory. It then installs the
  bundled model unless that model's directory and three files all exist, and
  polls for the written meta file at most five times;
- `downloadModelFromSupabase` requests `model.tflite`, `labels.txt` and
  `meta.json` from the `models` bucket, in that order. It writes each file's
  data and stops at the first failure with an error naming that file;
- `readLocalModelMeta` reads a model folder's metadata. It yields `null` on
  any failure;
- `loadModelList` merges the server's model table with the folders on the
  device. It then sorts the list downloaded-first, then by name.

The modules:

- `Rotation` (`rotation.dfy`): the index mapping of the rotation and its
  properties, and the two-loop routine itself on arrays.
- `Classifier` (`classifier.dfy`): arg-max and the decision, the label list,
  the gate and the write-index schedule. Its class `FrameSession` holds the
  window buffer (an `array<real>`), the write index, the running flag, the
  displayed translation and the labels. Its methods update them as the
  frame processor and `runInference` do.
- `Catalog` (`catalog.dfy`): `readLocalModelMeta` and `loadModelList` as
  functions over the results of their I/O calls, with the merge loop and
  the sort.
- `Provisioner` (`provisioner.dfy`): device storage is a class `Storage`. It
  holds the set of existing paths and the log of operations issued, in
  order. `ensureModelsDir` and `downloadModelFromSupabase` are its methods,
  each proved against a function giving the operations it issues.
- `Options` (`options.dfy`): the optional value used for `null` and
  `undefined`.

I/O answers are inputs:

- the network state;
- the directory listing;
- each meta file's parse result;
- the catalog query's answer;
- each existence check of the poll;
- what each download returns;
- the inference engine's `runSync`, a function from window contents to
  scores.

## Model

| member | source | states |
|---|---|---|
| Rotation.SourceSlot | app/index.tsx:164-169 | For a square image, the input index each output value is copied from lies inside the input buffer. |
| Rotation.SourceSlotAt | app/index.tsx:165-169 | Channel c of output pixel (x, y) is channel c of input pixel (n-1-y, x). |
| Rotation.SourceSlotOrbit | app/index.tsx:165-169 | Following the pixel mapping four times returns to the starting slot. |
| Rotation.InverseSlot | app/index.tsx:165-169 | Every input slot is read by some output slot: the inverse mapping's result maps back to it. |
| Rotation.SourceSlotBijective | app/index.tsx:164-175 | The mapping is a bijection on slots: no two output slots read the same input value. |
| Rotation.RotateFourTimes | app/index.tsx:158-177 | Rotating a square image four times gives back the image. |
| Rotation.RotateImage90Clockwise | app/index.tsx:158-178 | Returns a freshly allocated array whose contents are exactly the rotated image. |
| Classifier.ArgMax | app/index.tsx:187-189 | The reduce keeps an in-range entry whose score no entry exceeds, and no earlier entry ties with it (replacement needs a strictly greater score). |
| Classifier.Decision | app/index.tsx:190-192 | A class is published only if it is the arg-max, scores above 0.4 and is not class 0. Nothing is published exactly when no score exceeds 0.4 or class 0 holds a maximal score. |
| Classifier.LabelOfClass | app/index.tsx:67-69 | For a labels file written as newline-free labels joined by newlines, publishing class k shows the k-th label, and there is none (undefined) past the last. |
| Classifier.SplitLines | app/index.tsx:114-115 | Splitting yields at least one line, and no line contains a newline. |
| Classifier.JoinSplitLines | app/index.tsx:115 | Joining the split lines with newlines gives back the labels file. |
| Classifier.SplitJoinLines | app/index.tsx:115 | Newline-free labels joined into a file split back into the same list. |
| Classifier.LoadedLabelsArm | app/index.tsx:148-156 | The label list of any labels file is non-empty. With a model loaded, the picker hidden and loading done, classification is armed. |
| Classifier.ScheduleClosedForm | app/index.tsx:228-232 | From a fresh buffer, after n frames the write index is n mod 8 and n div 8 classifications have run. |
| Classifier.WriteSlot | app/index.tsx:223-226 | Writing a frame into slot s changes exactly that slot's 150528 values to the frame and keeps every other value. |
| Classifier.WriteSlotAt | app/index.tsx:223-226 | Each window value after the write comes from the frame inside the slot and is unchanged outside it. |
| Classifier.CopyFrame | app/index.tsx:223-226 | The copy loop leaves the buffer equal to the old window with the frame written into the slot. |
| Classifier.FrameSession.constructor | app/index.tsx:53-72 | The screen starts with no buffer, write index 0, no labels, an empty translation and the running flag down. |
| Classifier.FrameSession.LoadLabels | app/index.tsx:114-115 | The label list becomes the labels file split on newlines (never empty). |
| Classifier.FrameSession.RunInference | app/index.tsx:182-195 | Scores the current window. The translation becomes the decided class's label (or undefined past the list), or stays as it was when no class is decided. The running flag is down again afterwards. |
| Classifier.FrameSession.WriteFrame | app/index.tsx:213-232 | The window gets the rotated frame in the old index's slot and the index advances mod 8. A classification runs exactly when the index wraps to 0. Buffer and labels otherwise unchanged. |
| Classifier.FrameSession.ProcessFrame | app/index.tsx:202-232 | With classification off, nothing changes. Otherwise the zeroed buffer is allocated on first use, and a frame the rate limiter lets through is written and may trigger a classification, as in WriteFrame. |
| Catalog.OfflineCatalog | app/utils/fileUtils.ts:127-210 | Offline, the list holds one downloaded row per folder whose meta file exists and parses to a JSON value other than `null`, in listing order. Each row is named after its folder and carries the string coercions of the file's `id` and `language` ("undefined" when absent). A missing, unreadable or `null` meta file drops its folder. |
| Catalog.Kept | app/utils/fileUtils.ts:158-174 | The kept folder positions are increasing, in range, and are exactly those whose metadata is not null. |
| Catalog.LocalModelsSpec | app/utils/fileUtils.ts:158-174 | The local models are the kept folders in listing order, each named after its folder and carrying its id and language. |
| Catalog.FirstOfIds | app/utils/fileUtils.ts:193-194 | The positions of the local models appended by the merge are increasing, in range, and are exactly those whose id neither the starting list nor an earlier local model has. |
| Catalog.MergeLocalsSpec | app/utils/fileUtils.ts:193-202 | The merge keeps the server rows in front, untouched, and then appends, in listing order, exactly the local models that bring a new id. Of several local models sharing an id only the first is appended, and none whose id a server row has. Afterwards every local model's id is listed. |
| Catalog.CombinedSpec | app/utils/fileUtils.ts:178-210 | Online: each server row once, in order, downloaded exactly when a local folder carries its name, followed in listing order by exactly the local models whose id is new at their turn. Offline: exactly the local models, all downloaded. |
| Catalog.NameLeTotal | app/utils/fileUtils.ts:216 | Any two names are comparable under the name order. |
| Catalog.NameLeTransitive | app/utils/fileUtils.ts:216 | The name order is transitive. |
| Catalog.ItemLeTotal | app/utils/fileUtils.ts:212-217 | The comparator orders any two entries one way or the other. |
| Catalog.ItemLeTransitive | app/utils/fileUtils.ts:212-217 | The comparator's order is transitive. |
| Catalog.InsertPermutes | app/utils/fileUtils.ts:212-217 | Inserting an entry adds exactly that entry. |
| Catalog.InsertSorted | app/utils/fileUtils.ts:212-217 | Inserting into a sorted list keeps it sorted. |
| Catalog.SortItems | app/utils/fileUtils.ts:212-217 | The sorted list is a permutation of its input. Downloaded entries precede the others, and names ascend within each group. |
| Catalog.LoadModelList | app/utils/fileUtils.ts:149-225 | undefined exactly when fetching the network state throws, when listing the folders throws, or when online and the query fails. Otherwise it returns the merged (online) or local (offline) list, sorted, as a permutation. The merge loop is proved equal to the merge function. |
| Provisioner.ObjectKeyInjective | app/utils/fileUtils.ts:98-102 | The object keys `<model>/<file>` of different files of a model differ, so each download request names exactly one file. |
| Provisioner.CreatedAppend | app/utils/fileUtils.ts:26-115 | Two runs of storage operations create together what each creates. |
| Provisioner.ApplyAppend | app/utils/fileUtils.ts:26-115 | Applying two runs of operations in turn equals applying them concatenated. |
| Provisioner.EnsurePlanInstallsIffIncomplete | app/utils/fileUtils.ts:40-70 | The bundled model's assets are copied and its metadata written exactly when its artifact set is incomplete. With the models directory present and the set complete, the call issues nothing. |
| Provisioner.EnsurePlanIdempotent | app/utils/fileUtils.ts:26-85 | A second ensureModelsDir, on the storage the first left, issues no operation. |
| Provisioner.PollMetaVisible | app/utils/fileUtils.ts:72-77 | At most five checks. The poll stops at the first check that sees the meta file, after one 100 ms wait per unseen check. It reports seen exactly when one of the first five checks sees the file, and otherwise gives up after five checks and five waits. |
| Provisioner.FirstFailure | app/utils/fileUtils.ts:99-103 | The first failed download at or after k, with every earlier one successful. |
| Provisioner.DownloadResult | app/utils/fileUtils.ts:99-103 | No error exactly when all three downloads succeed. Otherwise the error names the first failed file and carries its message, and all earlier files succeeded. |
| Provisioner.FileStepEffects | app/utils/fileUtils.ts:99-113 | One round requests exactly its file's object key from the `models` bucket, and creates that file exactly when it returned non-empty data. |
| Provisioner.Requests | app/utils/fileUtils.ts:98-102 | The requests for files k..e ask the `models` bucket for those files' object keys, in download order. |
| Provisioner.FileOpsFetches | app/utils/fileUtils.ts:98-103 | The loop requests the files in order, up to and including the first that fails, and none after it. |
| Provisioner.StoredStep | app/utils/fileUtils.ts:99-113 | The files written from k on are file k's (when it downloaded with data) plus those from k+1 on. Nothing is written from a failure on. |
| Provisioner.FileOpsCreates | app/utils/fileUtils.ts:99-113 | The loop creates exactly the files downloaded with non-empty data before the first failure. |
| Provisioner.DownloadLeavesPartialModel | app/utils/fileUtils.ts:89-115 | After a download, storage holds what it held, the model's directory, and exactly the files written before the first failure. A failure part-way removes nothing. |
| Provisioner.RoundDone | app/utils/fileUtils.ts:99-114 | After round k the rest of the loop is the loop from k+1, or nothing when round k failed. |
| Provisioner.Storage.constructor | app/utils/fileUtils.ts:9 | Storage starts with the given paths and an empty log. |
| Provisioner.Storage.Issue | app/utils/fileUtils.ts:29 | Issuing an operation logs it and adds exactly the paths it creates. |
| Provisioner.Storage.EnsureModelsDir | app/utils/fileUtils.ts:26-85 | Issues exactly the operations of the ensureModelsDir plan for the storage it starts from. The paths that exist afterwards are the old ones plus what those operations create. |
| Provisioner.Storage.InstallBundled | app/utils/fileUtils.ts:50-70 | Creates the bundled model's directory when missing, then copies weights and labels and writes the metadata, in that order. |
| Provisioner.Storage.CopyBundledAsset | app/utils/fileUtils.ts:55-67 | Fetches one bundled asset, then copies it into the model's directory. |
| Provisioner.Storage.FetchFile | app/utils/fileUtils.ts:99-113 | Requests one file, and writes its data only when the request returned non-empty data. |
| Provisioner.Storage.DownloadModelFromSupabase | app/utils/fileUtils.ts:89-115 | Issues exactly the download plan: the directory when missing, then the loop up to its first failure. Storage changes accordingly, and the error is the one DownloadResult names. |
| Provisioner.Storage.DownloadFiles | app/utils/fileUtils.ts:98-114 | The loop issues the rounds from file 0 until the first failure and returns that failure's error, or none. |

## Left out

- The React user interface and its JSX are not part of this model. That covers the model picker (`app/modelPopUp.tsx`), the camera permission, the camera flip and the logging.
- `loadModel` is modelled only in its last step, the label split (`FrameSession.LoadLabels`). Its decision to download a model whose files are missing (app/index.tsx:82-88) and `loadTensorflowModel` with its GPU fallback are native calls. `loadModel` only reaches them through the model's `modelLoaded` input to the gate.
- The resize plugin is not modelled. Its output is the `resized` input, of length 224·224·3.
- `runAtTargetFps(6, …)` is a `due` flag. The clock that decides it is not modelled.
- The frame processor and `runInference` are not modelled as running concurrently. The global buffer is not modelled as being read by one classification while the next frame writes it. `runInference` runs to completion inside the frame it is triggered from.
- `Rotation.RotateImage90Clockwise`: scores and pixels are exact reals (`real`), not float32. NaN, rounding and `Float32Array` conversion are not modelled. The routine is proved for square images (`width == height`), the only size the app passes (224×224). For other shapes the source's indexing can read past the input, and the model does not describe that.
- `Classifier.Decision`: `runSync`'s output entries are indexed by position. Each key "k" parses back to k, as the keys of a typed array's entries do.
- `Catalog.NameLe`: `localeCompare` is lexicographic order on characters. Locale collation is not modelled.
- `Catalog.SortItems`: `Array.prototype.sort` is an insertion sort with the same comparator. The model proves the order and the permutation but not the source's exact placement of equal entries.
- `Catalog.LoadModelList`: `isConnected` and `isInternetReachable` are booleans. A `null` reachability counts as false, as `&&` makes it falsy. Server ids are strings. The console logging and the `finally` block are not modelled.
- `Provisioner.Storage.EnsureModelsDir`: `makeDirectoryAsync`, the assets' `downloadAsync`, `copyAsync` and `writeAsStringAsync` are modelled as succeeding. A throw part-way through would leave a partial bundled model, and the next call would install it again. `EnsurePlanIdempotent` is about a first call that completes.
- `Provisioner.Storage.DownloadModelFromSupabase`: `makeDirectoryAsync` and the base64 writes are modelled as succeeding. Only the storage downloads can fail.
- Existence checks (`getInfoAsync`) are reads of the set of existing paths. They are not logged as operations.
- `Provisioner.Storage.DownloadModelFromSupabase`: each file's base64 write is started by an unawaited `FileReader.onload`. The model logs the writes in download order, right after each request. It does not model them completing after the call returns, or out of order. The data-URL split is taken to yield the downloaded bytes; an empty payload means no write.
- `Provisioner.Storage.EnsureModelsDir`: the bundled `meta.json` text is a single `WriteMeta` operation, with its JSON contents abstracted. The poll's outcome is computed and discarded, as in the source, which then logs success either way.
- `initial_models` has a single entry (app/utils/fileUtils.ts:11-16), so `ensureModelsDir`'s loop over it is modelled as one pass for `BundledModel`.
- `app/utils/supabase.ts` (the storage and database client) is not part of this model. Its answers are the `outcomes` and `query` inputs.
- The rotation's name says clockwise, but for images with y growing downwards its mapping (x = height-1-newY, y = newX) turns them counter-clockwise. The model keeps the mapping as written.
- Catalog entries from the server are marked downloaded when a local folder has the model's name, whether or not that folder's metadata is usable (app/utils/fileUtils.ts:190). The model follows this code.
