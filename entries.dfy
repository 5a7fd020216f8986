/**
 * The per-face record handed to the post-processing script
 * (PostprocessingEntry), and the host's answers about a face that the
 * export loop consumes.
 *
 * The host renders, resamples, runs scripts and encodes images; none of that
 * is modelled. A Face carries, as plain data, what those host calls return
 * for that face.
 */
module Entries {
  import opened Wrappers
  import opened ExportNames

  /** A rendered bitmap, seen only through its size. */
  datatype Image = Image(width: int, height: int)

  /** What the user's post-processing script does to an entry. */
  datatype ScriptEffect =
    | Untouched
      /** The script assigns the entry's public mutable fields. */
    | Edits(image: Option<Image>, exportPath: Option<string>, format: string, quality: real, progressive: bool)
      /** The script throws; the message is that of the exception. */
    | Raises(message: string)

  /** One face (sheet) of a component, with the host's answers about it. */
  datatype Face = Face(
    /** The sheet is an UndecoratedCardBack. */
    undecoratedBack: bool,
    /** The bitmap sheet.paint returns. */
    rendered: Image,
    /** The bitmap ImageUtilities.resample returns when the face is shrunk. */
    resampled: Image,
    /** What the post-processing script does with this face's entry. */
    script: ScriptEffect,
    /** The message of the exception the image writer throws, if it fails. */
    writeFailure: Option<string>,
    /** A busy dialog is showing and is cancelled once this face is done. */
    cancelObserved: bool)

  /** The exporter's settings, as read through its getters. */
  datatype Settings = Settings(
    format: string,
    progressive: bool,
    quality: real,
    ppi: real,
    dimensionLimit: int,
    excludeSimpleFaces: bool,
    synthesizeBleedMargin: bool,
    postprocessingCode: Option<string>)

  /** The public mutable fields of an entry. */
  datatype EntryState = EntryState(
    exportPath: Option<string>,
    image: Option<Image>,
    format: string,
    quality: real,
    progressive: bool)

  /** The mutable fields of a freshly constructed entry for face `index`. */
  function InitialState(ex: Settings, sourcePath: string, sheet: Face, index: nat): EntryState
    requires AbsoluteFilePath(sourcePath)
  {
    EntryState(Some(ExportPath(sourcePath, index, ex.format)), Some(sheet.rendered),
               ex.format, ex.quality, ex.progressive)
  }

  /** The extension changeExportPathExtension is asked for, defaulting to the format. */
  function Extension(extension: Option<string>, format: string): string {
    if extension.None? then format else extension.value
  }

  /**
   * As written, changeExportPathExtension ignores its argument: asked for
   * any extension other than the entry's format, it still produces the
   * format's path, which is never the path the intended version produces.
   */
  lemma ExtensionIgnored(sourcePath: string, index: nat, format: string, extension: string)
    requires AbsoluteFilePath(sourcePath) && '/' !in format && '/' !in extension
    requires extension != format
    ensures ExportPath(sourcePath, index, format) != ExportPath(sourcePath, index, Extension(Some(extension), format))
  {
    if ExportPath(sourcePath, index, format) == ExportPath(sourcePath, index, extension) {
      ExportPathShape(sourcePath, index, format);
      ExportPathShape(sourcePath, index, extension);
      ExportFileNameInjective(FileName(sourcePath), index, index, format, extension);
    }
  }

  class PostprocessingEntry {
    /** Absolute path of the component file being exported. */
    const sourcePath: string
    /** Face index: 0 is the front, 1 the back, and so on. */
    const index: nat
    const ppi: real
    const simpleBackFace: bool
    const synthesizeBleedMargin: bool

    var exportPath: Option<string>
    var image: Option<Image>
    var format: string
    var quality: real
    var progressive: bool

    ghost predicate Valid()
      reads this
    {
      AbsoluteFilePath(sourcePath)
    }

    ghost function State(): EntryState
      reads this
    {
      EntryState(exportPath, image, format, quality, progressive)
    }

    /**
     * Snapshots the exporter's settings, renders the sheet and derives the
     * initial export path from the format.
     */
    constructor (ex: Settings, sourcePath: string, sheet: Face, index: nat)
      requires AbsoluteFilePath(sourcePath)
      ensures Valid()
      ensures this.sourcePath == sourcePath && this.index == index
      ensures ppi == ex.ppi && synthesizeBleedMargin == ex.synthesizeBleedMargin
      ensures simpleBackFace == sheet.undecoratedBack
      ensures State() == InitialState(ex, sourcePath, sheet, index)
    {
      this.sourcePath := sourcePath;
      this.index := index;
      ppi := ex.ppi;
      simpleBackFace := sheet.undecoratedBack;
      synthesizeBleedMargin := ex.synthesizeBleedMargin;
      image := Some(sheet.rendered);
      format := ex.format;
      exportPath := None;
      new;
      ChangeExportPathExtension(None);
      quality := ex.quality;
      progressive := ex.progressive;
    }

    /**
     * Recomputes exportPath from sourcePath, index and format. The
     * `extension` argument is defaulted but, as in the Java method, never used.
     */
    method ChangeExportPathExtension(extension: Option<string>)
      requires Valid()
      modifies this`exportPath
      ensures exportPath == Some(ExportPath(sourcePath, index, format))
    {
      var ext := extension;
      if ext.None? {
        ext := Some(format);
      }
      var name := FileName(sourcePath);
      var dot := IndexOf(name, '.');
      if dot.Some? {
        name := name[..dot.value];
      }
      name := name + "-" + Decimal(index + 1) + "." + format;
      exportPath := Some(Child(ParentDir(sourcePath), name));
    }

    /**
     * changeExportPathExtension as its parameter suggests it should behave:
     * the export path ends in the given extension, which defaults to the
     * format.
     */
    method ChangeExportPathExtensionIntended(extension: Option<string>)
      requires Valid()
      modifies this`exportPath
      ensures exportPath == Some(ExportPath(sourcePath, index, Extension(extension, format)))
      ensures '/' !in Extension(extension, format) ==>
                EndsWith(exportPath.value, "." + Extension(extension, format))
    {
      var ext := extension;
      if ext.None? {
        ext := Some(format);
      }
      var name := FileName(sourcePath);
      var dot := IndexOf(name, '.');
      if dot.Some? {
        name := name[..dot.value];
      }
      name := name + "-" + Decimal(index + 1) + "." + ext.value;
      exportPath := Some(Child(ParentDir(sourcePath), name));
      if '/' !in ext.value {
        ExportPathShape(sourcePath, index, ext.value);
      }
    }
  }
}
