/**
 * The Exporter: a configuration object whose setters validate or clamp
 * their arguments, and export, which renders every face of one component
 * file and writes it as an image file.
 *
 * export is specified by ExportSpec, a function of the settings, the file's
 * host data and the writer's lossless formats; Step is one iteration of its
 * face loop and Fold runs that loop over the first n faces.
 */
module Exporting {
  import opened Wrappers
  import opened ExportNames
  import opened Entries

  // The format names of the host's SimpleImageWriter.
  const FORMAT_BMP: string := "bmp"
  const FORMAT_GIF: string := "gif"
  const FORMAT_JPEG: string := "jpg"
  const FORMAT_JPEG2000: string := "jp2"
  const FORMAT_PNG: string := "png"

  /** The formats setFormat accepts. */
  const SUPPORTED_FORMATS: set<string> := {FORMAT_BMP, FORMAT_GIF, FORMAT_JPEG, FORMAT_JPEG2000, FORMAT_PNG}

  /** The IllegalArgumentException a setter throws. */
  datatype ConfigError =
    | UnsupportedFormat(format: string)
    | InvalidQuality(quality: real)
    | InvalidResolution(ppi: real)

  /** An entry of Results.errors. */
  datatype ExportError =
      /** The localised "app-err-open" message for the file name. */
    | CannotOpen(fileName: string)
      /** "no sheets to render: " followed by the file name. */
    | NoSheets(fileName: string)
      /** The message of an exception thrown while writing a face. */
    | WriteFailed(message: string)

  /** What the host reports about the file to export. */
  datatype SourceFile = SourceFile(
    /** The file's absolute path. */
    path: string,
    metadataVersion: int,
    deckLayoutSupported: bool,
    content: Content)

  datatype Content =
      /** ResourceKit.getGameComponentFromFile returns null. */
    | Unreadable
      /** The component's default sheets; None when createDefaultSheets returns null. */
    | Component(sheets: Option<seq<Face>>)

  /** One call to the image writer: where, what, and how it was configured. */
  datatype WriteRequest = WriteRequest(
    path: string,
    image: Image,
    format: string,
    progressive: bool,
    compression: real,
    pixelsPerInch: Option<real>)

  /** Why a face loop stopped early, if it did. */
  datatype Halt = Running | Cancelled | Escaped(message: string)

  /** The results of a (partial) export and the writes it asked for. */
  datatype Run = Run(outputs: seq<string>, errors: seq<ExportError>, writes: seq<WriteRequest>, halt: Halt)

  /** The result of running the post-processing step on an entry. */
  datatype ScriptResult = Ran(state: EntryState) | Threw(message: string)

  /** The faces that export leaves out. */
  predicate Skipped(s: Settings, face: Face) {
    s.excludeSimpleFaces && face.undecoratedBack
  }

  /** No post-processing code is set. */
  predicate NoScript(code: Option<string>) {
    code.None? || code == Some("")
  }

  /** applyDimensionLimits: the image after the size cap. */
  function LimitDimensions(limit: int, image: Image, resampled: Image): (r: Image)
    ensures limit <= 0 || (image.width <= limit && image.height <= limit) ==> r == image
    ensures limit > 0 && (image.width > limit || image.height > limit) ==> r == resampled
  {
    if limit > 0 && (image.width > limit || image.height > limit) then resampled else image
  }

  /** postprocess: empty or missing code leaves the entry as it is. */
  function RunScript(code: Option<string>, st: EntryState, effect: ScriptEffect): (r: ScriptResult)
    ensures NoScript(code) ==> r == Ran(st)
    ensures r.Threw? <==> !NoScript(code) && effect.Raises?
  {
    if code.None? || code.value == "" then Ran(st)
    else match effect
      case Untouched => Ran(st)
      case Edits(image, path, format, quality, progressive) =>
        Ran(EntryState(path, image, format, quality, progressive))
      case Raises(m) => Threw(m)
  }

  /**
   * writeImage's request to the writer for an entry with an image, or None
   * when the export path is missing or empty.
   */
  function WriteRequestFor(st: EntryState, replaced: bool, progressive: bool, ppi: real, lossless: set<string>): (r: Option<WriteRequest>)
    requires st.image.Some?
    ensures r.None? <==> st.exportPath.None? || st.exportPath.value == ""
    ensures r.Some? ==> r.value.path == st.exportPath.value && r.value.path != ""
    ensures r.Some? ==> r.value.image == st.image.value && r.value.format == st.format
    ensures r.Some? ==> r.value.progressive == progressive
    ensures r.Some? ==> r.value.compression == if st.format in lossless then 1.0 else st.quality
    ensures r.Some? ==> (r.value.pixelsPerInch.Some? <==> !replaced)
    ensures r.Some? && r.value.pixelsPerInch.Some? ==> r.value.pixelsPerInch.value == ppi
  {
    if st.exportPath.None? || st.exportPath.value == "" then None
    else
      var compression := if st.format in lossless then 1.0 else st.quality;
      Some(WriteRequest(st.exportPath.value, st.image.value, st.format, progressive,
                        compression, if replaced then None else Some(ppi)))
  }

  /** The entries the PostprocessingEntry constructor makes for the faces, one per face. */
  function InitialEntries(s: Settings, path: string, faces: seq<Face>): (entries: seq<EntryState>)
    requires AbsoluteFilePath(path)
    ensures |entries| == |faces|
  {
    seq(|faces|, k requires 0 <= k < |faces| => InitialState(s, path, faces[k], k))
  }

  /** Entry k is the one the constructor makes for face k. */
  lemma InitialEntryAt(s: Settings, path: string, faces: seq<Face>, k: nat)
    requires AbsoluteFilePath(path) && k < |faces|
    ensures InitialEntries(s, path, faces)[k] == InitialState(s, path, faces[k], k)
  {
  }

  /** A constructed entry once its size is capped. */
  function Prepared(s: Settings, face: Face, entry: EntryState): EntryState {
    entry.(image := Some(LimitDimensions(s.dimensionLimit, face.rendered, face.resampled)))
  }

  /**
   * What writing the post-processed entry `st` adds to the run: nothing
   * without an image or an export path, else one write and either an output
   * file or the writer's error message.
   */
  function Written(s: Settings, lossless: set<string>, run: Run, face: Face, st: EntryState): Run {
    if st.image.None? then run
    else
      var replaced := st.image.value.width != face.rendered.width
                      || st.image.value.height != face.rendered.height;
      match WriteRequestFor(st, replaced, s.progressive, s.ppi, lossless)
      case None => run
      case Some(req) =>
        if face.writeFailure.Some? then
          run.(writes := run.writes + [req], errors := run.errors + [WriteFailed(face.writeFailure.value)])
        else
          run.(writes := run.writes + [req], outputs := run.outputs + [req.path])
  }

  /** One iteration of export's face loop, for a face and the entry constructed for it. */
  function Step(s: Settings, lossless: set<string>, run: Run, face: Face, entry: EntryState): Run {
    if !run.halt.Running? || Skipped(s, face) then run
    else
      match RunScript(s.postprocessingCode, Prepared(s, face, entry), face.script)
      case Threw(m) => run.(halt := Escaped(m))
      case Ran(st) =>
        var written := Written(s, lossless, run, face, st);
        if face.cancelObserved then written.(halt := Cancelled) else written
  }

  /** export's face loop run over the first n faces, face k with entry k. */
  function Fold(s: Settings, lossless: set<string>, faces: seq<Face>, entries: seq<EntryState>, n: nat): Run
    requires n <= |faces| == |entries|
  {
    if n == 0 then Run([], [], [], Running)
    else Step(s, lossless, Fold(s, lossless, faces, entries, n - 1), faces[n - 1], entries[n - 1])
  }

  /** export(File): the early exits, then the face loop. */
  function ExportSpec(s: Settings, file: SourceFile, lossless: set<string>): Run
    requires AbsoluteFilePath(file.path)
  {
    if file.metadataVersion >= 1 && !file.deckLayoutSupported then Run([], [], [], Running)
    else match file.content
      case Unreadable => Run([], [CannotOpen(FileName(file.path))], [], Running)
      case Component(sheets) =>
        if sheets.None? || |sheets.value| == 0 then Run([], [NoSheets(FileName(file.path))], [], Running)
        else
          var faces := sheets.value;
          Fold(s, lossless, faces, InitialEntries(s, file.path, faces), |faces|)
  }

  /** setFormat's check. */
  function CheckFormat(format: string): (r: Outcome<ConfigError>)
    ensures r == Pass <==> format in SUPPORTED_FORMATS
    ensures r.Fail? ==> r.error == UnsupportedFormat(format)
  {
    if format == FORMAT_BMP || format == FORMAT_GIF || format == FORMAT_JPEG
       || format == FORMAT_JPEG2000 || format == FORMAT_PNG
    then Pass
    else Fail(UnsupportedFormat(format))
  }

  /** setQuality's check. */
  function CheckQuality(quality: real): (r: Outcome<ConfigError>)
    ensures r == Pass <==> 0.0 <= quality <= 1.0
    ensures r.Fail? ==> r.error == InvalidQuality(quality)
  {
    if quality < 0.0 || quality > 1.0 then Fail(InvalidQuality(quality)) else Pass
  }

  /** setResolution's check. */
  function CheckResolution(ppi: real): (r: Outcome<ConfigError>)
    ensures r == Pass <==> 1.0 <= ppi <= 9999.0
    ensures r.Fail? ==> r.error == InvalidResolution(ppi)
  {
    if ppi < 1.0 || ppi > 9999.0 then Fail(InvalidResolution(ppi)) else Pass
  }

  /** Results: output files and error messages, each only appended to. */
  class Results {
    var outputFiles: seq<string>
    var errors: seq<ExportError>

    constructor ()
      ensures outputFiles == [] && errors == []
    {
      outputFiles := [];
      errors := [];
    }

    method AddOutput(output: string)
      modifies this`outputFiles
      ensures outputFiles == old(outputFiles) + [output]
    {
      outputFiles := outputFiles + [output];
    }

    method AddError(error: ExportError)
      modifies this`errors
      ensures errors == old(errors) + [error]
    {
      errors := errors + [error];
    }
  }

  /** The image files the host's writer has been asked to write, in order. */
  class WriteLog {
    var requests: seq<WriteRequest>

    constructor ()
      ensures requests == []
    {
      requests := [];
    }
  }

  /** The host's SimpleImageWriter, as far as writeImage configures it. */
  class ImageWriter {
    const format: string
    const lossless: bool
    var progressive: bool
    var compression: real
    var pixelsPerInch: Option<real>

    constructor (format: string, losslessFormats: set<string>)
      ensures this.format == format && lossless == (format in losslessFormats)
      ensures pixelsPerInch.None?
    {
      this.format := format;
      lossless := format in losslessFormats;
      progressive := false;
      compression := 1.0;
      pixelsPerInch := None;
    }

    method SetProgressiveScan(progressive: bool)
      modifies this`progressive
      ensures this.progressive == progressive
    {
      this.progressive := progressive;
    }

    method SetCompressionQuality(quality: real)
      modifies this`compression
      ensures compression == quality
    {
      compression := quality;
    }

    method SetPixelsPerInch(ppi: real)
      modifies this`pixelsPerInch
      ensures pixelsPerInch == Some(ppi)
    {
      pixelsPerInch := Some(ppi);
    }

    /** Asks the host to write; `failure` is the message of what it throws, if anything. */
    method Write(image: Image, path: string, failure: Option<string>, log: WriteLog) returns (thrown: Option<string>)
      modifies log
      ensures log.requests == old(log.requests)
                + [WriteRequest(path, image, format, progressive, compression, pixelsPerInch)]
      ensures thrown == failure
    {
      log.requests := log.requests + [WriteRequest(path, image, format, progressive, compression, pixelsPerInch)];
      thrown := failure;
    }
  }

  class Exporter {
    var format: string
    var progressive: bool
    var quality: real
    var ppi: real
    var dimensionLimit: int
    var excludeSimpleFaces: bool
    var synthesizeBleedMargin: bool
    var postprocessingCode: Option<string>
    var postprocessingCodeFile: Option<string>

    /** The invariant every setter keeps. */
    ghost predicate Valid()
      reads this
    {
      format in SUPPORTED_FORMATS && 0.0 <= quality <= 1.0 && 1.0 <= ppi <= 9999.0 && dimensionLimit >= 0
    }

    /** The settings a PostprocessingEntry reads through the getters. */
    function Snapshot(): Settings
      reads this
    {
      Settings(format, progressive, quality, ppi, dimensionLimit, excludeSimpleFaces,
               synthesizeBleedMargin, postprocessingCode)
    }

    constructor ()
      ensures Valid()
      ensures format == FORMAT_PNG && !progressive && quality == 1.0 && ppi == 300.0
      ensures dimensionLimit == 0 && !excludeSimpleFaces && !synthesizeBleedMargin
      ensures postprocessingCode == Some("") && postprocessingCodeFile.None?
    {
      format := FORMAT_PNG;
      progressive := false;
      quality := 1.0;
      ppi := 300.0;
      dimensionLimit := 0;
      excludeSimpleFaces := false;
      synthesizeBleedMargin := false;
      postprocessingCode := Some("");
      postprocessingCodeFile := None;
    }

    method SetFormat(format: string) returns (r: Outcome<ConfigError>)
      requires Valid()
      modifies this`format
      ensures Valid()
      ensures r == CheckFormat(format)
      ensures this.format == if r.Pass? then format else old(this.format)
    {
      r := CheckFormat(format);
      if r.Pass? {
        this.format := format;
      }
    }

    method SetProgressive(progressive: bool)
      requires Valid()
      modifies this`progressive
      ensures Valid() && this.progressive == progressive
    {
      this.progressive := progressive;
    }

    method SetQuality(quality: real) returns (r: Outcome<ConfigError>)
      requires Valid()
      modifies this`quality
      ensures Valid()
      ensures r == CheckQuality(quality)
      ensures this.quality == if r.Pass? then quality else old(this.quality)
    {
      r := CheckQuality(quality);
      if r.Pass? {
        this.quality := quality;
      }
    }

    method SetResolution(ppi: real) returns (r: Outcome<ConfigError>)
      requires Valid()
      modifies this`ppi
      ensures Valid()
      ensures r == CheckResolution(ppi)
      ensures this.ppi == if r.Pass? then ppi else old(this.ppi)
    {
      r := CheckResolution(ppi);
      if r.Pass? {
        this.ppi := ppi;
      }
    }

    /** A negative limit is stored as 0, which means "no limit". */
    method SetDimensionLimit(dimensionLimit: int)
      requires Valid()
      modifies this`dimensionLimit
      ensures Valid()
      ensures this.dimensionLimit >= 0 && this.dimensionLimit >= dimensionLimit
      ensures this.dimensionLimit == dimensionLimit || (dimensionLimit < 0 && this.dimensionLimit == 0)
    {
      var limit := dimensionLimit;
      if limit < 0 {
        limit := 0;
      }
      this.dimensionLimit := limit;
    }

    method SetExcludeSimpleFaces(excludeSimpleFaces: bool)
      requires Valid()
      modifies this`excludeSimpleFaces
      ensures Valid() && this.excludeSimpleFaces == excludeSimpleFaces
    {
      this.excludeSimpleFaces := excludeSimpleFaces;
    }

    method SetSynthesizeBleedMargin(synthesizeBleedMargin: bool)
      requires Valid()
      modifies this`synthesizeBleedMargin
      ensures Valid() && this.synthesizeBleedMargin == synthesizeBleedMargin
    {
      this.synthesizeBleedMargin := synthesizeBleedMargin;
    }

    method SetPostprocessingCode(code: Option<string>)
      requires Valid()
      modifies this`postprocessingCode
      ensures Valid() && postprocessingCode == code
    {
      postprocessingCode := code;
    }

    /** The file path reported for the script; its conversion to a URL is not modelled. */
    method SetPostprocessingCodeFile(file: Option<string>)
      requires Valid()
      modifies this`postprocessingCodeFile
      ensures Valid() && postprocessingCodeFile == file
    {
      postprocessingCodeFile := file;
    }

    /** Shrinks the entry's image when a side exceeds a positive limit. */
    method ApplyDimensionLimits(entry: PostprocessingEntry, resampled: Image)
      requires entry.image.Some?
      modifies entry`image
      ensures entry.image == Some(LimitDimensions(dimensionLimit, old(entry.image.value), resampled))
    {
      var bi := entry.image.value;
      if dimensionLimit > 0 && (bi.width > dimensionLimit || bi.height > dimensionLimit) {
        entry.image := Some(resampled);
      }
    }

    /** Runs the post-processing code on the entry, unless there is none. */
    method Postprocess(entry: PostprocessingEntry, effect: ScriptEffect) returns (thrown: Option<string>)
      modifies entry`image, entry`exportPath, entry`format, entry`quality, entry`progressive
      ensures match RunScript(postprocessingCode, old(entry.State()), effect)
              case Ran(st) => thrown.None? && entry.State() == st
              case Threw(m) => thrown == Some(m)
    {
      thrown := None;
      if postprocessingCode.None? || postprocessingCode.value == "" {
        return;
      }
      match effect
      case Untouched =>
      case Edits(image, path, format, quality, progressive) =>
        entry.image, entry.exportPath, entry.format := image, path, format;
        entry.quality, entry.progressive := quality, progressive;
      case Raises(m) =>
        thrown := Some(m);
    }

    /**
     * Writes the entry's image to its export path unless the path is missing
     * or empty, and records the output file when the write succeeds.
     */
    method WriteImage(entry: PostprocessingEntry, replaced: bool, results: Results,
                      lossless: set<string>, failure: Option<string>, log: WriteLog)
      returns (thrown: Option<string>)
      requires entry.image.Some?
      modifies results`outputFiles, log
      ensures match WriteRequestFor(entry.State(), replaced, progressive, ppi, lossless)
              case None =>
                thrown.None? && results.outputFiles == old(results.outputFiles)
                && log.requests == old(log.requests)
              case Some(req) =>
                thrown == failure && log.requests == old(log.requests) + [req]
                && results.outputFiles == old(results.outputFiles) + (if failure.None? then [req.path] else [])
    {
      thrown := None;
      if entry.exportPath.None? || entry.exportPath.value == "" {
        return;
      }
      var wr := new ImageWriter(entry.format, lossless);
      wr.SetProgressiveScan(progressive);
      wr.SetCompressionQuality(if wr.lossless then 1.0 else entry.quality);
      if !replaced {
        wr.SetPixelsPerInch(ppi);
      }
      var output := entry.exportPath.value;
      thrown := wr.Write(entry.image.value, output, failure, log);
      if thrown.None? {
        results.AddOutput(output);
      }
    }

    /** The loop body of export for face `index`, up to its cancellation check. */
    method ExportFaceAt(s: Settings, path: string, faces: seq<Face>, ghost entries: seq<EntryState>, index: nat,
                        face: Face, results: Results, lossless: set<string>, log: WriteLog, ghost base: seq<WriteRequest>)
      returns (halt: Halt)
      requires AbsoluteFilePath(path) && s == Snapshot()
      requires index < |faces| == |entries| && face == faces[index]
      requires entries[index] == InitialState(s, path, face, index)
      requires Fold(s, lossless, faces, entries, index).halt.Running?
      requires Records(results, log, base, Fold(s, lossless, faces, entries, index))
      modifies results, log
      ensures halt == Fold(s, lossless, faces, entries, index + 1).halt
      ensures Records(results, log, base, Fold(s, lossless, faces, entries, index + 1))
    {
      if Skipped(s, face) {
        return Running;
      }
      halt := ExportFace(s, path, face, index, results, lossless, log,
                         Fold(s, lossless, faces, entries, index), base);
    }

    /**
     * One pass of export's loop body for a face that is not skipped: make the
     * entry, cap its size, post-process it and write it. The returned halt
     * says whether the script threw or cancellation was observed.
     */
    method ExportFace(s: Settings, path: string, face: Face, index: nat, results: Results,
                      lossless: set<string>, log: WriteLog, ghost run: Run, ghost base: seq<WriteRequest>)
      returns (halt: Halt)
      requires AbsoluteFilePath(path) && s == Snapshot() && run.halt.Running? && !Skipped(s, face)
      requires Records(results, log, base, run)
      modifies results, log
      ensures var next := Step(s, lossless, run, face, InitialState(s, path, face, index));
              && halt == next.halt
              && Records(results, log, base, next)
    {
      var entry := new PostprocessingEntry(s, path, face, index);
      var biWidth, biHeight := entry.image.value.width, entry.image.value.height;
      ApplyDimensionLimits(entry, face.resampled);
      assert entry.State() == Prepared(s, face, InitialState(s, path, face, index));
      var thrown := Postprocess(entry, face.script);
      if thrown.Some? {
        return Escaped(thrown.value);
      }
      if entry.image.Some? {
        var resized := entry.image.value.width != biWidth || entry.image.value.height != biHeight;
        WriteEntry(s, entry, resized, face, results, lossless, log, run, base);
      }
      halt := if face.cancelObserved then Cancelled else Running;
    }

    /** The try block around writeImage: a write exception becomes an error entry. */
    method WriteEntry(s: Settings, entry: PostprocessingEntry, replaced: bool, face: Face, results: Results,
                      lossless: set<string>, log: WriteLog, ghost run: Run, ghost base: seq<WriteRequest>)
      requires s == Snapshot() && entry.image.Some? && Records(results, log, base, run)
      requires replaced == (entry.image.value.width != face.rendered.width
                            || entry.image.value.height != face.rendered.height)
      modifies results, log
      ensures Records(results, log, base, Written(s, lossless, run, face, entry.State()))
    {
      var failure := WriteImage(entry, replaced, results, lossless, face.writeFailure, log);
      if failure.Some? {
        results.AddError(WriteFailed(failure.value));
      }
    }

    /**
     * export(File): exports every face of one component file. `escaped` is
     * the message of a script exception that escapes export; the results
     * gathered so far are then lost to the caller.
     */
    method Export(file: SourceFile, lossless: set<string>, log: WriteLog) returns (results: Results, escaped: Option<string>)
      requires Valid() && AbsoluteFilePath(file.path)
      modifies log
      ensures fresh(results)
      ensures var run := ExportSpec(Snapshot(), file, lossless);
              && escaped == (if run.halt.Escaped? then Some(run.halt.message) else None)
              && Records(results, log, old(log.requests), run)
    {
      results := new Results();
      escaped := None;
      if file.metadataVersion >= 1 && !file.deckLayoutSupported {
        return;
      }
      if file.content.Unreadable? {
        results.AddError(CannotOpen(FileName(file.path)));
        return;
      }
      if file.content.sheets.None? || |file.content.sheets.value| == 0 {
        results.AddError(NoSheets(FileName(file.path)));
        return;
      }
      escaped := ExportFaces(Snapshot(), file.path, file.content.sheets.value, results, lossless, log);
    }

    /** export's loop over the sheets of a component that has at least one. */
    method ExportFaces(s: Settings, path: string, faces: seq<Face>, results: Results,
                       lossless: set<string>, log: WriteLog)
      returns (escaped: Option<string>)
      requires AbsoluteFilePath(path) && s == Snapshot()
      requires results.outputFiles == [] && results.errors == []
      modifies results, log
      ensures var run := Fold(s, lossless, faces, InitialEntries(s, path, faces), |faces|);
              && escaped == (if run.halt.Escaped? then Some(run.halt.message) else None)
              && Records(results, log, old(log.requests), run)
    {
      ghost var entries := InitialEntries(s, path, faces);
      escaped := None;
      var i := 0;
      while i < |faces|
        invariant 0 <= i <= |faces|
        invariant Fold(s, lossless, faces, entries, i).halt.Running?
        invariant Records(results, log, old(log.requests), Fold(s, lossless, faces, entries, i))
      {
        InitialEntryAt(s, path, faces, i);
        var halt := ExportFaceAt(s, path, faces, entries, i, faces[i], results, lossless, log, old(log.requests));
        if halt.Escaped? {
          escaped := Some(halt.message);
          FoldHalted(s, lossless, faces, entries, i + 1, |faces|);
          return;
        }
        if halt.Cancelled? {
          FoldHalted(s, lossless, faces, entries, i + 1, |faces|);
          break;
        }
        i := i + 1;
      }
    }
  }

  /** The results and the writer's log hold exactly what `run` recorded. */
  ghost predicate Records(results: Results, log: WriteLog, base: seq<WriteRequest>, run: Run)
    reads results, log
  {
    results.outputFiles == run.outputs && results.errors == run.errors && log.requests == base + run.writes
  }

  // ----- Properties of the face loop -----

  /** Once the loop has stopped, later faces change nothing. */
  lemma {:induction false} FoldHalted(s: Settings, lossless: set<string>, faces: seq<Face>, entries: seq<EntryState>, k: nat, n: nat)
    requires k <= n <= |faces| == |entries|
    requires !Fold(s, lossless, faces, entries, k).halt.Running?
    ensures Fold(s, lossless, faces, entries, n) == Fold(s, lossless, faces, entries, k)
  {
    if k < n {
      FoldHalted(s, lossless, faces, entries, k, n - 1);
    }
  }
}

module ExportProperties {
  import opened Wrappers
  import opened ExportNames
  import opened Entries
  import opened Exporting

  /** Every write yields exactly one output or one error, and each face at most one write. */
  lemma {:induction false} FoldCounts(s: Settings, lossless: set<string>, faces: seq<Face>, entries: seq<EntryState>, n: nat)
    requires n <= |faces| == |entries|
    ensures var run := Fold(s, lossless, faces, entries, n);
            |run.outputs| + |run.errors| == |run.writes| <= n
  {
    if n > 0 {
      FoldCounts(s, lossless, faces, entries, n - 1);
      StepAppends(s, lossless, Fold(s, lossless, faces, entries, n - 1), faces[n - 1], entries[n - 1]);
    }
  }

  /** One face appends at most one write, and with it exactly one output or one error. */
  lemma StepAppends(s: Settings, lossless: set<string>, run: Run, face: Face, entry: EntryState)
    ensures var next := Step(s, lossless, run, face, entry);
            && run.outputs <= next.outputs && run.errors <= next.errors && run.writes <= next.writes
            && |next.writes| <= |run.writes| + 1
            && |next.outputs| + |next.errors| - |run.outputs| - |run.errors| == |next.writes| - |run.writes|
  {
  }

  /** The prefix order on sequences is transitive. */
  lemma PrefixTrans<T>(a: seq<T>, b: seq<T>, c: seq<T>)
    requires a <= b && b <= c
    ensures a <= c
  {
    assert b[..|a|] == c[..|a|];
  }

  /** Results are only appended to: the run over fewer faces is a prefix of every list. */
  lemma {:induction false} FoldExtends(s: Settings, lossless: set<string>, faces: seq<Face>, entries: seq<EntryState>, k: nat, n: nat)
    requires k <= n <= |faces| == |entries|
    ensures var early, run := Fold(s, lossless, faces, entries, k), Fold(s, lossless, faces, entries, n);
            early.outputs <= run.outputs && early.errors <= run.errors && early.writes <= run.writes
  {
    if k < n {
      FoldExtends(s, lossless, faces, entries, k, n - 1);
      var early, prev := Fold(s, lossless, faces, entries, k), Fold(s, lossless, faces, entries, n - 1);
      var run := Step(s, lossless, prev, faces[n - 1], entries[n - 1]);
      StepAppends(s, lossless, prev, faces[n - 1], entries[n - 1]);
      PrefixTrans(early.outputs, prev.outputs, run.outputs);
      PrefixTrans(early.errors, prev.errors, run.errors);
      PrefixTrans(early.writes, prev.writes, run.writes);
    }
  }

  /** Each face adds at most one output file, after those of the faces before it. */
  lemma AtMostOneOutputPerFace(s: Settings, lossless: set<string>, faces: seq<Face>, entries: seq<EntryState>, k: nat)
    requires k < |faces| == |entries|
    ensures var before, after := Fold(s, lossless, faces, entries, k), Fold(s, lossless, faces, entries, k + 1);
            |before.outputs| <= |after.outputs| <= |before.outputs| + 1
            && before.outputs <= after.outputs
  {
  }

  /** With excludeSimpleFaces, an undecorated back face adds nothing at all. */
  lemma SkippedFaceAddsNothing(s: Settings, lossless: set<string>, faces: seq<Face>, entries: seq<EntryState>, k: nat)
    requires k < |faces| == |entries|
    requires s.excludeSimpleFaces && faces[k].undecoratedBack
    ensures Fold(s, lossless, faces, entries, k + 1) == Fold(s, lossless, faces, entries, k)
  {
  }

  /**
   * A write that throws records the exception's message as an error, no
   * output, and the loop goes on unless cancellation is observed.
   */
  lemma WriteFailureIsRecorded(s: Settings, lossless: set<string>, run: Run, face: Face, entry: EntryState, st: EntryState)
    requires run.halt.Running? && !Skipped(s, face)
    requires RunScript(s.postprocessingCode, Prepared(s, face, entry), face.script) == Ran(st)
    requires st.image.Some? && st.exportPath.Some? && st.exportPath.value != ""
    requires face.writeFailure.Some?
    ensures var next := Step(s, lossless, run, face, entry);
            && next.outputs == run.outputs
            && next.errors == run.errors + [WriteFailed(face.writeFailure.value)]
            && |next.writes| == |run.writes| + 1
            && (next.halt.Running? <==> !face.cancelObserved)
  {
  }

  /**
   * The loop stops at the first face after which cancellation is observed:
   * no later face is rendered, written or recorded.
   */
  lemma CancellationStops(s: Settings, lossless: set<string>, faces: seq<Face>, entries: seq<EntryState>, k: nat)
    requires k < |faces| == |entries|
    requires Fold(s, lossless, faces, entries, k).halt.Running?
    requires !Skipped(s, faces[k]) && faces[k].cancelObserved
    requires !RunScript(s.postprocessingCode, Prepared(s, faces[k], entries[k]), faces[k].script).Threw?
    ensures Fold(s, lossless, faces, entries, |faces|) == Fold(s, lossless, faces, entries, k + 1)
    ensures Fold(s, lossless, faces, entries, |faces|).halt == Cancelled
  {
    FoldHalted(s, lossless, faces, entries, k + 1, |faces|);
  }

  /**
   * An exception from the post-processing script ends the loop at once; no
   * later face is touched.
   */
  lemma ScriptExceptionEscapes(s: Settings, lossless: set<string>, faces: seq<Face>, entries: seq<EntryState>, k: nat)
    requires k < |faces| == |entries|
    requires Fold(s, lossless, faces, entries, k).halt.Running? && !Skipped(s, faces[k])
    requires !NoScript(s.postprocessingCode) && faces[k].script.Raises?
    ensures Fold(s, lossless, faces, entries, |faces|).halt == Escaped(faces[k].script.message)
    ensures Fold(s, lossless, faces, entries, |faces|).writes == Fold(s, lossless, faces, entries, k).writes
  {
    FoldHalted(s, lossless, faces, entries, k + 1, |faces|);
  }

  /** The entry carries an export path that writeImage accepts. */
  predicate Named(entry: EntryState) {
    entry.exportPath.Some? && entry.exportPath.value != ""
  }

  /**
   * The indices, in order, of the first n faces that a run without a script
   * writes successfully: those not skipped whose write succeeds.
   */
  function WrittenIndices(s: Settings, faces: seq<Face>, n: nat): (r: seq<nat>)
    requires n <= |faces|
    ensures forall a :: 0 <= a < |r| ==> r[a] < n
  {
    if n == 0 then []
    else
      WrittenIndices(s, faces, n - 1)
        + if !Skipped(s, faces[n - 1]) && faces[n - 1].writeFailure.None? then [n - 1] else []
  }

  /** The written faces are listed in increasing order, hence each once. */
  lemma {:induction false} WrittenIndicesIncrease(s: Settings, faces: seq<Face>, n: nat)
    requires n <= |faces|
    ensures forall a, b :: 0 <= a < b < |WrittenIndices(s, faces, n)| ==>
              WrittenIndices(s, faces, n)[a] < WrittenIndices(s, faces, n)[b]
  {
    if n > 0 {
      WrittenIndicesIncrease(s, faces, n - 1);
      var prev, r := WrittenIndices(s, faces, n - 1), WrittenIndices(s, faces, n);
      forall a, b | 0 <= a < b < |r|
        ensures r[a] < r[b]
      {
        assert r[a] == prev[a];
        if b < |prev| {
          assert r[b] == prev[b] && prev[a] < prev[b];
        } else {
          assert prev[a] < n - 1 && r[b] == n - 1;
        }
      }
    }
  }

  /** Reference errors of the first n faces of a run without a script: the write failures, in face order. */
  function ExpectedErrors(s: Settings, faces: seq<Face>, n: nat): seq<ExportError>
    requires n <= |faces|
  {
    if n == 0 then []
    else
      ExpectedErrors(s, faces, n - 1)
        + if !Skipped(s, faces[n - 1]) && faces[n - 1].writeFailure.Some? then [WriteFailed(faces[n - 1].writeFailure.value)] else []
  }

  /**
   * Without post-processing code and without cancellation, for entries that
   * all carry an export path, the loop writes every face that is not
   * skipped: output a is the export path of the a-th face written
   * successfully, and the errors are the failed writes' messages in face
   * order.
   */
  lemma {:induction false} PlainRun(s: Settings, lossless: set<string>, faces: seq<Face>, entries: seq<EntryState>, n: nat)
    requires n <= |faces| == |entries| && NoScript(s.postprocessingCode)
    requires forall k :: 0 <= k < n ==> !faces[k].cancelObserved && Named(entries[k])
    ensures var run, idx := Fold(s, lossless, faces, entries, n), WrittenIndices(s, faces, n);
            && run.halt == Running
            && |run.outputs| == |idx|
            && (forall a :: 0 <= a < |idx| ==> Some(run.outputs[a]) == entries[idx[a]].exportPath)
            && run.errors == ExpectedErrors(s, faces, n)
  {
    if n > 0 {
      PlainRun(s, lossless, faces, entries, n - 1);
      var prev, run := Fold(s, lossless, faces, entries, n - 1), Fold(s, lossless, faces, entries, n);
      PlainStep(s, lossless, prev, faces[n - 1], entries[n - 1]);
      var pidx, idx := WrittenIndices(s, faces, n - 1), WrittenIndices(s, faces, n);
      forall a | 0 <= a < |idx|
        ensures Some(run.outputs[a]) == entries[idx[a]].exportPath
      {
        if a < |pidx| {
          assert run.outputs[a] == prev.outputs[a] && idx[a] == pidx[a];
        }
      }
    }
  }

  /** One iteration of PlainRun: a face that is not skipped adds its export path or its write failure. */
  lemma PlainStep(s: Settings, lossless: set<string>, run: Run, face: Face, entry: EntryState)
    requires run.halt == Running && NoScript(s.postprocessingCode) && !face.cancelObserved && Named(entry)
    ensures var next, written := Step(s, lossless, run, face, entry), !Skipped(s, face);
            && next.halt == Running
            && next.outputs == run.outputs + (if written && face.writeFailure.None? then [entry.exportPath.value] else [])
            && next.errors == run.errors + (if written && face.writeFailure.Some? then [WriteFailed(face.writeFailure.value)] else [])
  {
  }

  /**
   * Every write goes to a non-empty path with the exporter's progressive
   * flag; and without a script or a dimension limit, every write of entries
   * made with the exporter's format and quality carries the exporter's
   * resolution, that format, and compression 1 for lossless formats and the
   * configured quality otherwise.
   */
  lemma {:induction false} WriteSettings(s: Settings, lossless: set<string>, faces: seq<Face>, entries: seq<EntryState>, n: nat)
    requires n <= |faces| == |entries|
    ensures forall w :: w in Fold(s, lossless, faces, entries, n).writes ==>
              w.path != "" && w.progressive == s.progressive
    ensures NoScript(s.postprocessingCode) && s.dimensionLimit == 0
            && (forall k :: 0 <= k < n ==> entries[k].format == s.format && entries[k].quality == s.quality) ==>
              forall w :: w in Fold(s, lossless, faces, entries, n).writes ==>
                && w.pixelsPerInch == Some(s.ppi)
                && w.format == s.format
                && w.compression == if s.format in lossless then 1.0 else s.quality
  {
    if n > 0 {
      WriteSettings(s, lossless, faces, entries, n - 1);
    }
  }

  /** A deck file is ignored: nothing is written or recorded. */
  lemma DeckFileIgnored(s: Settings, file: SourceFile, lossless: set<string>)
    requires AbsoluteFilePath(file.path)
    requires file.metadataVersion >= 1 && !file.deckLayoutSupported
    ensures ExportSpec(s, file, lossless) == Run([], [], [], Running)
  {
  }

  /** A file that cannot be read gives exactly one error and no output. */
  lemma UnreadableFileGivesOneError(s: Settings, file: SourceFile, lossless: set<string>)
    requires AbsoluteFilePath(file.path)
    requires !(file.metadataVersion >= 1 && !file.deckLayoutSupported) && file.content.Unreadable?
    ensures ExportSpec(s, file, lossless) == Run([], [CannotOpen(FileName(file.path))], [], Running)
  {
  }

  /** A component without sheets gives exactly one error and no output. */
  lemma NoSheetsGivesOneError(s: Settings, file: SourceFile, lossless: set<string>)
    requires AbsoluteFilePath(file.path)
    requires !(file.metadataVersion >= 1 && !file.deckLayoutSupported) && file.content.Component?
    requires file.content.sheets.None? || file.content.sheets.value == []
    ensures ExportSpec(s, file, lossless) == Run([], [NoSheets(FileName(file.path))], [], Running)
  {
  }

  /** export never reports more output files than the component has sheets. */
  lemma OutputsBoundedBySheets(s: Settings, file: SourceFile, lossless: set<string>)
    requires AbsoluteFilePath(file.path)
    ensures var run := ExportSpec(s, file, lossless);
            |run.outputs| <= (if file.content.Component? && file.content.sheets.Some?
                              then |file.content.sheets.value| else 0)
  {
    if file.content.Component? && file.content.sheets.Some? {
      var faces := file.content.sheets.value;
      var entries := InitialEntries(s, file.path, faces);
      FoldCounts(s, lossless, faces, entries, |faces|);
      if |faces| > 0 && !(file.metadataVersion >= 1 && !file.deckLayoutSupported) {
        assert ExportSpec(s, file, lossless) == Fold(s, lossless, faces, entries, |faces|);
      }
    }
  }

  /** Every entry the constructor makes carries a non-empty export path. */
  lemma ConstructedEntriesNamed(s: Settings, path: string, faces: seq<Face>)
    requires AbsoluteFilePath(path)
    ensures forall k :: 0 <= k < |faces| ==> Named(InitialEntries(s, path, faces)[k])
  {
    forall k | 0 <= k < |faces|
      ensures Named(InitialEntries(s, path, faces)[k])
    {
      InitialEntryAt(s, path, faces, k);
    }
  }

  /**
   * Exporting a component without post-processing code and without
   * cancellation writes one file per sheet that is not skipped, next to the
   * source file and named after it and the sheet's index; it reports
   * exactly the successful writes as outputs and the failed ones as errors,
   * in sheet order.
   */
  lemma PlainExport(s: Settings, file: SourceFile, lossless: set<string>)
    requires AbsoluteFilePath(file.path) && NoScript(s.postprocessingCode)
    requires !(file.metadataVersion >= 1 && !file.deckLayoutSupported)
    requires file.content.Component? && file.content.sheets.Some? && |file.content.sheets.value| > 0
    requires forall k :: 0 <= k < |file.content.sheets.value| ==> !file.content.sheets.value[k].cancelObserved
    ensures var run, faces := ExportSpec(s, file, lossless), file.content.sheets.value;
            var idx := WrittenIndices(s, faces, |faces|);
            && run.halt == Running
            && |run.outputs| == |idx|
            && (forall a :: 0 <= a < |idx| ==> run.outputs[a] == ExportPath(file.path, idx[a], s.format))
            && run.errors == ExpectedErrors(s, faces, |faces|)
  {
    var faces := file.content.sheets.value;
    var entries := InitialEntries(s, file.path, faces);
    var idx := WrittenIndices(s, faces, |faces|);
    assert ExportSpec(s, file, lossless) == Fold(s, lossless, faces, entries, |faces|);
    ConstructedEntriesNamed(s, file.path, faces);
    PlainRun(s, lossless, faces, entries, |faces|);
    var run := Fold(s, lossless, faces, entries, |faces|);
    forall a | 0 <= a < |idx|
      ensures run.outputs[a] == ExportPath(file.path, idx[a], s.format)
    {
      InitialEntryAt(s, file.path, faces, idx[a]);
    }
  }

  /** No supported format name contains a path separator. */
  lemma SupportedFormatsHaveNoSeparator(format: string)
    requires format in SUPPORTED_FORMATS
    ensures '/' !in format
  {
  }

  /** Export paths of different faces of one file, listed in increasing face order, are all different. */
  lemma DistinctPaths(path: string, format: string, idx: seq<nat>, outs: seq<string>)
    requires AbsoluteFilePath(path) && '/' !in format && |outs| == |idx|
    requires forall a, b :: 0 <= a < b < |idx| ==> idx[a] < idx[b]
    requires forall a :: 0 <= a < |idx| ==> outs[a] == ExportPath(path, idx[a], format)
    ensures forall a, b :: 0 <= a < b < |outs| ==> outs[a] != outs[b]
  {
    forall a, b | 0 <= a < b < |outs|
      ensures outs[a] != outs[b]
    {
      if outs[a] == outs[b] {
        ExportPathInjective(path, idx[a], idx[b], format);
      }
    }
  }

  /**
   * Exporting with a supported format without a script or cancellation
   * never reports the same output file twice: each face has its own file.
   */
  lemma PlainExportDistinct(s: Settings, file: SourceFile, lossless: set<string>)
    requires AbsoluteFilePath(file.path) && NoScript(s.postprocessingCode) && s.format in SUPPORTED_FORMATS
    requires !(file.metadataVersion >= 1 && !file.deckLayoutSupported)
    requires file.content.Component? && file.content.sheets.Some? && |file.content.sheets.value| > 0
    requires forall k :: 0 <= k < |file.content.sheets.value| ==> !file.content.sheets.value[k].cancelObserved
    ensures var outs := ExportSpec(s, file, lossless).outputs;
            forall a, b :: 0 <= a < b < |outs| ==> outs[a] != outs[b]
  {
    var faces := file.content.sheets.value;
    var outs := ExportSpec(s, file, lossless).outputs;
    var idx := WrittenIndices(s, faces, |faces|);
    assert '/' !in s.format by {
      SupportedFormatsHaveNoSeparator(s.format);
    }
    PlainExport(s, file, lossless);
    WrittenIndicesIncrease(s, faces, |faces|);
    DistinctPaths(file.path, s.format, idx, outs);
  }

  /**
   * The exporter's invariant is what makes its output files distinct: an
   * exporter reached through its setters exports, without a script or
   * cancellation, each face to a file of its own.
   */
  lemma ExporterOutputsDistinct(ex: Exporter, file: SourceFile, lossless: set<string>)
    requires ex.Valid() && NoScript(ex.postprocessingCode) && AbsoluteFilePath(file.path)
    requires !(file.metadataVersion >= 1 && !file.deckLayoutSupported)
    requires file.content.Component? && file.content.sheets.Some? && |file.content.sheets.value| > 0
    requires forall k :: 0 <= k < |file.content.sheets.value| ==> !file.content.sheets.value[k].cancelObserved
    ensures var outs := ExportSpec(ex.Snapshot(), file, lossless).outputs;
            forall a, b :: 0 <= a < b < |outs| ==> outs[a] != outs[b]
  {
    PlainExportDistinct(ex.Snapshot(), file, lossless);
  }

  /**
   * With a positive dimension limit and no script, a face is written as
   * rendered when both sides are within the limit, and resampled otherwise;
   * the write carries the exporter's resolution exactly when the written
   * image has the rendered size.
   */
  lemma DimensionLimitStep(s: Settings, lossless: set<string>, run: Run, face: Face, entry: EntryState)
    requires run.halt.Running? && !Skipped(s, face) && NoScript(s.postprocessingCode) && Named(entry)
    requires s.dimensionLimit > 0
    ensures var next, r := Step(s, lossless, run, face, entry), face.rendered;
            var image := if r.width <= s.dimensionLimit && r.height <= s.dimensionLimit then r else face.resampled;
            var resized := image.width != r.width || image.height != r.height;
            && |next.writes| == |run.writes| + 1
            && next.writes[|run.writes|].image == image
            && next.writes[|run.writes|].pixelsPerInch == if resized then None else Some(s.ppi)
  {
  }

  /**
   * Every image export asks for is written with the exporter's progressive
   * flag to a non-empty path; without a script or a dimension limit, also
   * with the exporter's format and resolution, and with compression 1 for
   * lossless formats and the configured quality otherwise.
   */
  lemma ExportWriteSettings(s: Settings, file: SourceFile, lossless: set<string>)
    requires AbsoluteFilePath(file.path)
    ensures forall w :: w in ExportSpec(s, file, lossless).writes ==>
              w.path != "" && w.progressive == s.progressive
    ensures NoScript(s.postprocessingCode) && s.dimensionLimit == 0 ==>
              forall w :: w in ExportSpec(s, file, lossless).writes ==>
                && w.pixelsPerInch == Some(s.ppi)
                && w.format == s.format
                && w.compression == if s.format in lossless then 1.0 else s.quality
  {
    if !(file.metadataVersion >= 1 && !file.deckLayoutSupported) && file.content.Component?
       && file.content.sheets.Some? && |file.content.sheets.value| > 0 {
      var faces := file.content.sheets.value;
      var entries := InitialEntries(s, file.path, faces);
      assert ExportSpec(s, file, lossless) == Fold(s, lossless, faces, entries, |faces|);
      forall k | 0 <= k < |faces|
        ensures entries[k].format == s.format && entries[k].quality == s.quality
      {
        InitialEntryAt(s, file.path, faces, k);
      }
      WriteSettings(s, lossless, faces, entries, |faces|);
    }
  }
}
