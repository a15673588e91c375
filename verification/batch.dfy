/**
 The batch run as a sequence of signals, and the progress consumer.

 A run sends `false` on the state channel, lists the chosen folder, keeps
 the readable entries whose extension passes the image filter, loads the
 watermark, allocates the `watermarked` output folder inside the chosen
 folder, sends the initial progress value 1, then for every image sends the
 progress value 0 before opening it and writes the watermarked result into
 the output folder under the image's own file name, and finally sends `true`
 on the state channel. A listing failure sends `true` straight away. The
 parallel per-file map is taken in listing order.

 Panics are part of the trace: an unloadable watermark, an output folder
 that cannot be allocated, and an image that cannot be opened all unwind
 the run, which then never sends `true`.
 */
module Batch {
  import opened Common
  import ImageFilter
  import TargetFolder

  /** One signal of a run, on whichever channel carries it. */
  datatype Event =
    | State(idle: bool)
    | Progress(value: int)
    | Write(folder: string, file: string)

  /** One entry of the folder listing: a file name and the extension of
      its path, or an entry the listing could not read. */
  datatype DirEntry = Entry(name: string, extension: Option<string>) | Unreadable

  /** What happens when one image is processed: opening it (or creating its
      decoder) fails, decoding it fails, or it decodes. */
  datatype FileOpen = OpenFails | DecodeFails | Decodes

  /** The signals of a run, and whether the run ended in a panic. */
  datatype Run = Run(events: seq<Event>, panicked: bool)

  /** The name of the output folder. */
  const OutputBase: string := "watermarked"

  /** The file names of the readable image entries, in listing order. */
  function ImageNames(entries: seq<DirEntry>): (names: seq<string>)
    ensures |names| <= |entries|
    ensures forall n :: n in names <==>
      exists e :: e in entries && e.Entry? && e.name == n && ImageFilter.IsImageFile(e.extension)
  {
    if |entries| == 0 then []
    else
      var rest := ImageNames(entries[1..]);
      assert forall e :: e in entries <==> e == entries[0] || e in entries[1..];
      match entries[0]
      case Unreadable => rest
      case Entry(name, extension) =>
        if ImageFilter.IsImageFile(extension) then [name] + rest else rest
  }

  /** The progress values among the signals, in order. */
  function ProgressValues(events: seq<Event>): seq<int> {
    if |events| == 0 then []
    else if events[0].Progress? then [events[0].value] + ProgressValues(events[1..])
    else ProgressValues(events[1..])
  }

  /** The files written, in order. */
  function WrittenFiles(events: seq<Event>): seq<string> {
    if |events| == 0 then []
    else if events[0].Write? then [events[0].file] + WrittenFiles(events[1..])
    else WrittenFiles(events[1..])
  }

  /** The images that decode, in order. */
  function Decoding(names: seq<string>, open: string -> FileOpen): seq<string> {
    if |names| == 0 then []
    else if open(names[0]) == Decodes then [names[0]] + Decoding(names[1..], open)
    else Decoding(names[1..], open)
  }

  /** `n` zeros. */
  function Zeros(n: nat): (z: seq<int>)
    ensures |z| == n && forall i :: 0 <= i < n ==> z[i] == 0
  {
    seq(n, _ => 0)
  }

  lemma ProgressValuesAppend(a: seq<Event>, b: seq<Event>)
    ensures ProgressValues(a + b) == ProgressValues(a) + ProgressValues(b)
  {
    if |a| > 0 {
      assert (a + b)[1..] == a[1..] + b;
      ProgressValuesAppend(a[1..], b);
    } else {
      assert a + b == b;
    }
  }

  lemma WrittenFilesAppend(a: seq<Event>, b: seq<Event>)
    ensures WrittenFiles(a + b) == WrittenFiles(a) + WrittenFiles(b)
  {
    if |a| > 0 {
      assert (a + b)[1..] == a[1..] + b;
      WrittenFilesAppend(a[1..], b);
    } else {
      assert a + b == b;
    }
  }

  /** The per-file map: each image sends the progress value 0, then is
      opened; an open failure panics, a decode failure returns an error for
      that image only, and a decoded image is written into `folder`. */
  function ProcessAll(names: seq<string>, folder: string, open: string -> FileOpen): (r: Run)
    ensures forall e :: e in r.events ==> !e.State?
    ensures forall e :: e in r.events && e.Write? ==> e.folder == folder && e.file in names && open(e.file) == Decodes
    ensures r.panicked <==> exists n :: n in names && open(n) == OpenFails
    ensures !r.panicked ==> ProgressValues(r.events) == Zeros(|names|)
    ensures !r.panicked ==> WrittenFiles(r.events) == Decoding(names, open)
  {
    if |names| == 0 then Run([], false)
    else
      var name := names[0];
      assert forall n :: n in names <==> n == name || n in names[1..];
      match open(name)
      case OpenFails => Run([Progress(0)], true)
      case DecodeFails =>
        var rest := ProcessAll(names[1..], folder, open);
        ProgressValuesAppend([Progress(0)], rest.events);
        WrittenFilesAppend([Progress(0)], rest.events);
        Run([Progress(0)] + rest.events, rest.panicked)
      case Decodes =>
        var rest := ProcessAll(names[1..], folder, open);
        ProgressValuesAppend([Progress(0), Write(folder, name)], rest.events);
        WrittenFilesAppend([Progress(0), Write(folder, name)], rest.events);
        Run([Progress(0), Write(folder, name)] + rest.events, rest.panicked)
  }

  /** One batch run. `listing` is `None` when the folder cannot be read;
      `watermarkLoads` says whether the watermark opens and decodes; `fs`
      is the folder in which the output folder is allocated. In the source
      the listed folder and `fs` are the same directory; they are separate
      parameters on purpose, because the listing is taken before the output
      folder is created and no property here relates the two. */
  function ApplyWatermark(listing: Option<seq<DirEntry>>, watermarkLoads: bool,
                          fs: TargetFolder.Fs, open: string -> FileOpen): (r: Run)
    ensures |r.events| >= 1 && r.events[0] == State(false)
    ensures listing.None? ==> r.events == [State(false), State(true)] && !r.panicked
    ensures r.panicked <==>
      && listing.Some?
      && (|| !watermarkLoads
          || !TargetFolder.CreateTargetFolder(OutputBase, fs).outcome.Created?
          || exists n :: n in ImageNames(listing.value) && open(n) == OpenFails)
  {
    if listing.None? then Run([State(false), State(true)], false)
    else
      var names := ImageNames(listing.value);
      if !watermarkLoads then Run([State(false)], true)
      else
        var allocation := TargetFolder.CreateTargetFolder(OutputBase, fs);
        if !allocation.outcome.Created? then Run([State(false)], true)
        else
          var work := ProcessAll(names, allocation.outcome.name, open);
          if work.panicked then Run([State(false), Progress(1)] + work.events, true)
          else Run([State(false), Progress(1)] + work.events + [State(true)], false)
  }

  /** The progress bar's reaction to one value: a non-zero value resets the
      count of completed steps, zero adds one step. */
  function Consume(count: int, value: int): (r: int)
    ensures value != 0 ==> r == 0
    ensures value == 0 ==> r == count + 1
  {
    if value == 0 then count + 1 else 0
  }

  /** The progress bar after consuming `values` in order: the starting
      count plus every value when all are zero, and otherwise the number of
      zeros after the last non-zero value. */
  function Fold(count: int, values: seq<int>): (r: int)
    ensures (forall i :: 0 <= i < |values| ==> values[i] == 0) ==> r == count + |values|
    ensures forall k :: 0 <= k < |values| && values[k] != 0 && (forall i :: k < i < |values| ==> values[i] == 0) ==>
      r == |values| - 1 - k
    decreases |values|
  {
    if |values| == 0 then count else Fold(Consume(count, values[0]), values[1..])
  }

  /** Every run starts with exactly one `false` on the state channel; it
      ends with exactly one `true` when it does not panic, and a panicking
      run never sends `true`. */
  lemma StateBracket(listing: Option<seq<DirEntry>>, watermarkLoads: bool,
                     fs: TargetFolder.Fs, open: string -> FileOpen)
    ensures var r := ApplyWatermark(listing, watermarkLoads, fs, open);
      && |r.events| >= 1
      && r.events[0] == State(false)
      && multiset(r.events)[State(false)] == 1
      && (!r.panicked ==> r.events[|r.events| - 1] == State(true) && multiset(r.events)[State(true)] == 1)
      && (r.panicked ==> State(true) !in r.events)
  {
  }

  /** A folder that cannot be listed yields the bare bracket. */
  lemma ListingFailure(watermarkLoads: bool, fs: TargetFolder.Fs, open: string -> FileOpen)
    ensures ApplyWatermark(None, watermarkLoads, fs, open) == Run([State(false), State(true)], false)
  {
  }

  /** A run that does not panic after listing `entries` sends one 1 and then
      one 0 per image (a decode failure still sends its 0), writes every
      decoding image and nothing else into the freshly allocated output
      folder under its own name, and leaves the progress bar at the number
      of images whatever it showed before. */
  lemma CompletedRun(entries: seq<DirEntry>, watermarkLoads: bool,
                     fs: TargetFolder.Fs, open: string -> FileOpen, before: int)
    requires !ApplyWatermark(Some(entries), watermarkLoads, fs, open).panicked
    ensures var r := ApplyWatermark(Some(entries), watermarkLoads, fs, open);
      var names := ImageNames(entries);
      var allocation := TargetFolder.CreateTargetFolder(OutputBase, fs);
      && allocation.outcome.Created?
      && allocation.outcome.name !in fs.existing
      && ProgressValues(r.events) == [1] + Zeros(|names|)
      && WrittenFiles(r.events) == Decoding(names, open)
      && (forall e :: e in r.events && e.Write? ==> e.folder == allocation.outcome.name && e.file in names)
      && Fold(before, ProgressValues(r.events)) == |names|
  {
    var r := ApplyWatermark(Some(entries), watermarkLoads, fs, open);
    var names := ImageNames(entries);
    var allocation := TargetFolder.CreateTargetFolder(OutputBase, fs);
    var work := ProcessAll(names, allocation.outcome.name, open);
    var head := [State(false), Progress(1)];
    assert r.events == head + work.events + [State(true)];
    ProgressValuesAppend(head + work.events, [State(true)]);
    ProgressValuesAppend(head, work.events);
    assert ProgressValues(head) == [1];
    assert ProgressValues([State(true)]) == [];
    WrittenFilesAppend(head + work.events, [State(true)]);
    WrittenFilesAppend(head, work.events);
    assert WrittenFiles(head) == [] && WrittenFiles([State(true)]) == [];
    assert forall e :: e in r.events <==> e in head || e in work.events || e == State(true);
    var values := [1] + Zeros(|names|);
    assert values[0] != 0 && forall i :: 0 < i < |values| ==> values[i] == 0;
  }

  /** Only image entries are written: a non-image or unreadable entry never
      appears among the written files. */
  lemma NonImagesUntouched(entries: seq<DirEntry>, watermarkLoads: bool,
                           fs: TargetFolder.Fs, open: string -> FileOpen, name: string)
    requires forall e :: e in entries && e.Entry? && e.name == name ==> !ImageFilter.IsImageFile(e.extension)
    ensures forall e :: e in ApplyWatermark(Some(entries), watermarkLoads, fs, open).events && e.Write? ==> e.file != name
  {
  }
}
