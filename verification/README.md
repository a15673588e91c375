# Cliquemark watermark core in Dafny

Cliquemark is a desktop application that stamps a watermark image onto every
image file in a chosen folder. This project models the deterministic logic of
its batch engine, which sits in `src/main.rs` among GTK widget code:

- **Placement** (`placement.dfy`). The alignment toggle's active index becomes
  a one-hot vector `[TL, TR, BL, BR]`, with any index other than 0..3 meaning
  bottom right. One branch-free integer formula then places the watermark's
  top-left corner from the image size, the watermark size and a margin. The
  batch path uses the same scaled margin on both axes, and the preview path
  uses one adjusted margin. The formula is proved to agree with a case-by-case
  reference placement, `Anchor`, at every corner. At any corner the watermark
  lies inside the image exactly when the margin is non-negative and the
  watermark plus one margin fits on each axis.
- **Image filter** (`image_filter.dfy`). `is_image_file` accepts a path when
  its extension, lower-cased, is one of jpg, jpeg, png, gif, bmp, webp, avif or
  ico. The filter is characterised as "equal to an allowed extension ignoring
  case", and it is proved not to depend on letter case.
- **Output folder** (`target_folder.dfy`). `create_target_folder` runs over a
  parent directory. The parent is modelled as the set of names it holds plus
  the set of names whose creation fails for another reason. The allocator
  tries `base`. On any failure it tries `base1` to `base9`. It returns the
  first name it creates, and it returns an error at the first failure that is
  not "already exists". When `base1` to `base9` all exist it panics, because
  `char::from_digit(10, 10)` is `None` and the code unwraps it.
- **Batch trace** (`batch.dfy`). `apply_watermark` is modelled as the
  sequence of signals it sends. State-channel values are `State(b)`,
  progress values are `Progress(v)`, and saved images are `Write(folder, file)`.
  A run that can panic is marked as panicked. The progress bar's consumer is
  a fold that counts steps as integers.

Inputs that come from I/O or from foreign code are parameters:

- the folder listing, `None` when `read_dir` fails;
- whether the watermark loads;
- the parent directory's state;
- for each image, whether it opens, fails to decode, or decodes.

Behaviours of the code the model keeps:

- An image that cannot be opened, a watermark that cannot be loaded, and an
  output folder that cannot be allocated all panic (`unwrap`). The run then
  never sends `true` on the state channel. `Batch.StateBracket` proves exactly
  that. Only a decoder error is isolated to its own file.
- The output-folder suffix is one digit, so the tenth collision panics. The
  retry is not unbounded.
- Any failure to create `base` falls through to the numbered retries. Only
  failures inside the retry loop are told apart from "already exists".
- Entries are filtered by extension only. A directory whose name ends in an
  image extension passes the filter.
- Each image sends its progress tick before it is opened, so a file that then
  fails to decode still advances the bar.

## Model

| member | source | states |
|---|---|---|
| Placement.AlignmentArray | src/main.rs:598-604 | the vector is one-hot, indices 0..3 set their own slot, and every other index sets the bottom-right slot |
| Placement.AlignmentArrayIsIndicator | src/main.rs:377-383 | the toggle index's vector is the indicator of the corner that index names: top left, top right, bottom left, or bottom right for any other index |
| Placement.OneHotIsIndicator | src/main.rs:598-604 | every one-hot alignment vector is the indicator of exactly one corner |
| Placement.Place | src/main.rs:742-745 | for an indicator vector, the branch-free formula equals the case-by-case reference placement (near edge plus margin, or far edge minus watermark and margin) |
| Placement.BatchPosition | src/main.rs:737-745 | in batch mode the gap between the watermark and both edges it is anchored to equals the one scaled margin |
| Placement.PreviewRectangle | src/main.rs:94-101 | the preview rectangle keeps the computed watermark size, and its gap to both anchored edges equals the adjusted margin |
| Placement.CornerExactness | src/main.rs:742-745 | the four corners give (m, m), (W-w-m, m), (m, H-h-m) and (W-w-m, H-h-m) |
| Placement.InsideIff | src/main.rs:742-745 | at any corner the watermark is inside the image iff m >= 0, w+m <= W and h+m <= H |
| Placement.InBounds | src/main.rs:742-745 | for a one-hot alignment with m >= 0, w+2m <= W and h+2m <= H, the watermark is inside the image |
| ImageFilter.Lower | src/main.rs:762 | the lower-cased extension equals the original ignoring case and contains no upper-case ASCII letter |
| ImageFilter.IsImageFile | src/main.rs:760-767 | true iff an extension exists and it equals, ignoring case, one of the eight allowed extensions |
| ImageFilter.CaseInsensitive | src/main.rs:762-763 | two extensions that differ only in letter case are both accepted or both rejected |
| ImageFilter.Examples | src/main.rs:760-767 | a missing extension and "tiff" or "" are rejected; "JPG" and "WebP" are accepted |
| TargetFolder.CreateDir | src/main.rs:788-791 | creating a present name reports "already exists"; creation succeeds iff the name is neither present nor failing, and then adds only that name |
| TargetFolder.FromDigit | src/main.rs:782 | a digit character exists exactly below 10, and it is the character of that digit |
| TargetFolder.NumberedDistinct | src/main.rs:780-785 | the names `base1`..`base9` differ from `base` and from each other |
| TargetFolder.Retry | src/main.rs:777-793 | from digit i the loop creates the first absent numbered name, errs if that name fails for another reason, panics iff every numbered name from i on is present, and adds only a created name |
| TargetFolder.CreateTargetFolder | src/main.rs:769-794 | an unblocked `base` is created; otherwise the outcome is the first absent `base<i>`, or an error when that name fails for another reason, or a panic iff `base1`..`base9` are all present; a created name was absent and is the only name added |
| TargetFolder.CreateTargetFolderFirstAbsent | src/main.rs:777-792 | conversely, with `base` blocked and `base<i>` the first absent numbered name, the result is `Created(base<i>)` if it can be created and the loop's error otherwise |
| TargetFolder.AllocatorContractDetermines | src/main.rs:769-794 | any result meeting the allocator's contract is the allocator's result, so the contract fixes the outcome and the resulting directory |
| TargetFolder.ThreeAllocations | src/main.rs:771-790 | three calls on a parent lacking `base`, `base1` and `base2` create those three names in order, and nothing else |
| TargetFolder.FirstErrorFallsThrough | src/main.rs:773-777 | a non-"already exists" failure on `base` is not reported; the loop still creates `base1` |
| Batch.ImageNames | src/main.rs:691-699 | a name is kept iff some readable entry has that name and an extension the image filter accepts |
| Batch.ProcessAll | src/main.rs:715-752 | per-file work never touches the state channel; it panics iff some image fails to open; otherwise it sends one 0 per image and writes exactly the decodable images, in order, into the output folder |
| Batch.Consume | src/main.rs:648-653 | a non-zero progress value resets the bar; a zero value advances it by one step |
| Batch.Fold | src/main.rs:647-653 | after a sequence of values the bar shows the starting count plus the length when all values are zero, and otherwise the number of zeros after the last non-zero value |
| Batch.ApplyWatermark | src/main.rs:665-757 | every run's first signal is `false`; an unreadable folder gives exactly `[false, true]`; a run panics iff the folder was listed and the watermark does not load, the output folder is not created, or some listed image fails to open (the full trace is stated by `StateBracket` and `CompletedRun`) |
| Batch.StateBracket | src/main.rs:675-757 | every run begins with the only `false`; a run that does not panic ends with the only `true`; a panicking run never sends `true` |
| Batch.ListingFailure | src/main.rs:682-690 | an unreadable folder yields exactly `[State(false), State(true)]` with no progress and no writes |
| Batch.CompletedRun | src/main.rs:710-757 | a run that does not panic sends progress `[1, 0, ..., 0]` with one 0 per image, writes exactly the decodable images into a fresh output folder, and leaves the bar at the image count from any starting value |
| Batch.NonImagesUntouched | src/main.rs:691-699 | an entry the filter rejects is never written |

## Left out

- The floating-point arithmetic is left out: the preview ratios and `ceil` (src/main.rs:79-94), the relative margin and surface area (src/main.rs:595-596), and the `sqrt`/`round` watermark sizing and margin scaling (src/main.rs:731-737). The watermark size and the margin enter the placement functions as integers.
- The placement formulas use unbounded integers. The source uses `i32` in the preview and `i64` in the batch. Overflow cannot arise for the pixel sizes involved, so wrap-around is not modelled.
- Decoding, EXIF orientation, the triangle-filter resize, the alpha overlay with its edge clipping, and encoding and saving all belong to the `image` crate, whose code is not part of this model. A `Write` event stands for the attempted save. The source ignores the save's result.
- `Path::extension` parsing and `to_string_lossy` are left out. A listing entry carries its extension as an optional string.
- ImageFilter.IsImageFile: lower-cases ASCII letters only, where the source uses Unicode `to_lowercase`. For this all-ASCII allow-list the decision is the same.
- Batch.ImageNames: states which names are kept, not their order or how often they appear. The order is fixed by the recursive definition that `ProcessAll` consumes.
- The rayon parallel map is taken sequentially in listing order. When an image fails to open, the model stops the trace there. The real run may process other images before the panic unwinds, but it never sends `true` in either case.
- The capacity-1 channels are modelled as an ordered list of sent values. Their back-pressure and blocking are left out.
- The progress bar's fraction is counted in steps. The step size `1/N` comes from the preview's listing (src/main.rs:507) and is floating point.
- GTK and libadwaita construction, dialogs, page switching, the random preview choice, and `println!`/`eprintln!` output are user-interface and logging code with no bearing on these properties.
