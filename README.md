# Bulk export plug-in: a verified model

This project models the logic that the Strange Eons bulk export plug-in
(`ca.cgjennings.seplugins.export`) contributes on its own behalf. Most of the
plug-in is glue around the host application, which renders sheets, resamples
bitmaps, runs scripts and encodes images. The model covers the three pieces of
logic the plug-in owns:

- **`Exporter`**, modelled in `exporter.dfy`, modules `Exporting` and `ExportProperties`.
  - It is a configuration object. Its setters validate their arguments or clamp them.
  - `export(File)` renders every face (sheet) of one component file, and may
    resize it and post-process it.
  - It writes each face as an image file next to the source file, and
    collects output files and error messages in a `Results` object.
  - Three early exits give fixed results: a deck file, an unreadable file, and a component without sheets.
- **`PostprocessingEntry`**, modelled in `entries.dfy` (module `Entries`) and `export_names.dfy` (module `ExportNames`).
  - It is the per-face record handed to the user's post-processing script.
  - Its constructor snapshots the exporter's settings.
  - `changeExportPathExtension` derives the export path. The path is the
    source file's parent directory, then the base name up to its first `.`,
    then `-`, then `index+1` in decimal, then `.`, then the format.
- **`BulkExportAction`**, modelled in `bulk_export_action.dfy`, module `BulkExport`.
  - This is the project action. It decides whether a selection holds component
    files (`.eon`), looking one level deep.
  - It builds the list of files it hands to the bulk export dialog.

**How the host is modelled.** Host calls become data.

- A `Face` records what the host answers for one sheet:
  - whether the sheet is an undecorated card back;
  - the rendered bitmap and the bitmap after resampling;
  - what the post-processing script does;
  - the message of the exception the image writer throws, if it throws;
  - whether a busy dialog is cancelled once the face is done.
- A `SourceFile` records what the host reports about the file:
  - its metadata version;
  - whether deck layout is supported;
  - whether it can be read;
  - its default sheets.
- The image writer is the class `ImageWriter`. It appends every write it is asked for, with its configuration, to a `WriteLog`.

**How export is proved.**

- `Exporter.Export` is an imperative loop over the faces. It mirrors the Java
  method branch for branch.
- It is proved against `ExportSpec`. That function gives the early exits and then folds `Step`, one loop iteration, over the faces.
- The ghost predicate `Records` ties the `Results` object and the writer's log to the specified `Run`.
- The properties of exporting are lemmas about `Fold` and `ExportSpec`: counts, ordering, skipping, cancellation, write settings and distinct output names.

**How `buildList` is proved.** `BulkExport.BuildList` keeps the nested loops,
the `matches` counter, the early exit when no list is given, and the in-place
appends. It is proved against `Suitable`, a reference definition of the
members it collects. The relation between that definition and the
"applies" condition is proved separately.

## Model

Each source cell is `src/ca/cgjennings/seplugins/export/` followed by the file name and lines.

| member | source | states |
|---|---|---|
| ExportNames.IndexOf | src/ca/cgjennings/seplugins/export/PostprocessingEntry.java:46 | the result is the position of the first occurrence of the character, and None exactly when the character does not occur (`String.indexOf`) |
| ExportNames.Stem | src/ca/cgjennings/seplugins/export/PostprocessingEntry.java:45-49 | the stem is a prefix of the file name with no `.` in it, followed either by `.` or by the end of the name (the whole name when it has no dot) |
| ExportNames.StemUnique | src/ca/cgjennings/seplugins/export/PostprocessingEntry.java:45-49 | any prefix with no dot that is followed by `.` or by the end of the name is exactly the stem, so the stem is the part before the FIRST dot |
| ExportNames.Decimal | src/ca/cgjennings/seplugins/export/PostprocessingEntry.java:50 | `String.valueOf` of a face number is a non-empty string of digits, with no leading zero (a leading `0` only in `"0"` itself, for 0), and contains no `.`, `-` or `/` |
| ExportNames.DecimalRoundTrip | src/ca/cgjennings/seplugins/export/PostprocessingEntry.java:50 | reading the decimal digits back gives the face number |
| ExportNames.FileName | src/ca/cgjennings/seplugins/export/PostprocessingEntry.java:44-45 | `File.getName` is a suffix of the path that contains no separator and, when shorter than the path, follows a separator |
| ExportNames.PathParts | src/ca/cgjennings/seplugins/export/PostprocessingEntry.java:44-52 | an absolute path is its parent directory and its file name joined by a separator, so `getParentFile` and `getName` together recover the path |
| ExportNames.ParentDir | src/ca/cgjennings/seplugins/export/PostprocessingEntry.java:52 | `File.getParentFile` of an absolute path is an absolute path and a proper prefix of it |
| ExportNames.Child | src/ca/cgjennings/seplugins/export/PostprocessingEntry.java:52-53 | the rule itself: `new File(dir, name).getAbsolutePath()` is `"/" + name` when `dir` is the root and `dir + "/" + name` otherwise |
| ExportNames.ChildParts | src/ca/cgjennings/seplugins/export/PostprocessingEntry.java:52-53 | `new File(dir, name)` is an absolute path whose parent is `dir` and whose name is `name` |
| ExportNames.ExportFileName | src/ca/cgjennings/seplugins/export/PostprocessingEntry.java:45-50 | the rule itself: `Stem(name) + "-" + Decimal(index + 1) + "." + format`, the name cut at its first dot, then the 1-based face number and the format |
| ExportNames.ExportNameRoundTrip | src/ca/cgjennings/seplugins/export/PostprocessingEntry.java:45-50 | the export file name can be parsed back into the stem, the face index and the format |
| ExportNames.ExportFileNameInjective | src/ca/cgjennings/seplugins/export/PostprocessingEntry.java:45-50 | two export names of one source name are equal only if both the face index and the format are equal |
| ExportNames.FirstFaceIsNumberedOne | src/ca/cgjennings/seplugins/export/PostprocessingEntry.java:50 | face 0 is named stem + `-1.` + format |
| ExportNames.ExportFileNameEndsWithFormat | src/ca/cgjennings/seplugins/export/PostprocessingEntry.java:50 | the export file name ends with `.` followed by the format |
| ExportNames.ExportFileNameHasNoSeparator | src/ca/cgjennings/seplugins/export/PostprocessingEntry.java:45-50 | without `/` in the source name and the format, the export file name has no `/` either |
| ExportNames.ExportPath | src/ca/cgjennings/seplugins/export/PostprocessingEntry.java:44-53 | the rule itself: `Child(ParentDir(sourcePath), ExportFileName(FileName(sourcePath), index, format))`, the export file name placed in the source file's parent directory |
| ExportNames.ExportPathShape | src/ca/cgjennings/seplugins/export/PostprocessingEntry.java:44-53 | the export path is absolute, has the source file's parent directory, is named by the export-name rule, and ends with `.` followed by the format |
| ExportNames.ExportPathInjective | src/ca/cgjennings/seplugins/export/PostprocessingEntry.java:44-53 | different faces of one file get different export paths |
| Entries.InitialState | src/ca/cgjennings/seplugins/export/PostprocessingEntry.java:26-36 | the rule itself: a fresh entry has export path `ExportPath(sourcePath, index, format)`, the rendered sheet as image, and the exporter's format, quality and progressive flag |
| Entries.PostprocessingEntry.constructor | src/ca/cgjennings/seplugins/export/PostprocessingEntry.java:21-37 | the constructor copies the source path and index, ppi and synthesizeBleedMargin from the exporter, and format, quality and progressive from the exporter's getters; simpleBackFace holds exactly for an undecorated card back; the image is the rendered sheet; the export path is the one derived from the format |
| Entries.PostprocessingEntry.ChangeExportPathExtension | src/ca/cgjennings/seplugins/export/PostprocessingEntry.java:39-54 | the new export path depends only on sourcePath, index and format, never on the argument or the old path, so the method is idempotent |
| Entries.ExtensionIgnored | src/ca/cgjennings/seplugins/export/PostprocessingEntry.java:39-50 | asked for an extension other than the format, the method as written gives a path different from the one that ends in that extension |
| Entries.PostprocessingEntry.ChangeExportPathExtensionIntended | src/ca/cgjennings/seplugins/export/PostprocessingEntry.java:39-54 | the corrected method builds the export path from the extension, which defaults to the format, and the path ends with `.` followed by that extension |
| Exporting.CheckFormat | src/ca/cgjennings/seplugins/export/Exporter.java:66-78 | a format passes exactly when it is one of the five `SimpleImageWriter.FORMAT_*` names (modelled as bmp, gif, jpg, jp2 and png); otherwise the error names the format |
| Exporting.CheckQuality | src/ca/cgjennings/seplugins/export/Exporter.java:92-97 | a quality passes exactly when it lies in [0, 1]; otherwise the error carries the value |
| Exporting.CheckResolution | src/ca/cgjennings/seplugins/export/Exporter.java:103-108 | a resolution passes exactly when it lies in [1, 9999]; otherwise the error carries the value |
| Exporting.Exporter.constructor | src/ca/cgjennings/seplugins/export/Exporter.java:31-39 | the defaults are png, not progressive, quality 1, 300 ppi, no dimension limit, faces not excluded, no bleed margin, empty code and no code file; the invariant holds |
| Exporting.Exporter.SetFormat | src/ca/cgjennings/seplugins/export/Exporter.java:66-78 | a supported format is stored; any other format is rejected and the format is left unchanged; the invariant is kept |
| Exporting.Exporter.SetProgressive | src/ca/cgjennings/seplugins/export/Exporter.java:84-86 | the flag is stored and the invariant is kept |
| Exporting.Exporter.SetQuality | src/ca/cgjennings/seplugins/export/Exporter.java:92-97 | a quality in [0, 1] is stored exactly; any other is rejected and the quality is left unchanged; the invariant is kept |
| Exporting.Exporter.SetResolution | src/ca/cgjennings/seplugins/export/Exporter.java:103-108 | a resolution in [1, 9999] is stored; any other is rejected and the resolution is left unchanged; the invariant is kept |
| Exporting.Exporter.SetDimensionLimit | src/ca/cgjennings/seplugins/export/Exporter.java:114-119 | the stored limit is the argument, or 0 when the argument is negative (the maximum of the two); the invariant is kept |
| Exporting.Exporter.SetExcludeSimpleFaces | src/ca/cgjennings/seplugins/export/Exporter.java:125-127 | the flag is stored and the invariant is kept |
| Exporting.Exporter.SetSynthesizeBleedMargin | src/ca/cgjennings/seplugins/export/Exporter.java:133-135 | the flag is stored and the invariant is kept |
| Exporting.Exporter.SetPostprocessingCode | src/ca/cgjennings/seplugins/export/Exporter.java:141-143 | the code is stored, null included, and the invariant is kept |
| Exporting.Exporter.SetPostprocessingCodeFile | src/ca/cgjennings/seplugins/export/Exporter.java:155-165 | the reported script file is stored, null included, and the invariant is kept |
| Exporting.Results.constructor | src/ca/cgjennings/seplugins/export/Exporter.java:43-46 | a new `Results` has no output files and no errors |
| Exporting.Results.AddOutput | src/ca/cgjennings/seplugins/export/Exporter.java:48-50 | the output file is appended and the earlier ones are kept |
| Exporting.Results.AddError | src/ca/cgjennings/seplugins/export/Exporter.java:52-54 | the error is appended and the earlier ones are kept |
| Exporting.LimitDimensions | src/ca/cgjennings/seplugins/export/Exporter.java:229-239 | the image is replaced by the resampled one exactly when the limit is positive and a side exceeds it; otherwise it is untouched |
| Exporting.Exporter.ApplyDimensionLimits | src/ca/cgjennings/seplugins/export/Exporter.java:229-239 | the entry's image becomes the capped image, and no other field changes |
| Exporting.RunScript | src/ca/cgjennings/seplugins/export/Exporter.java:241-257 | null or empty code leaves the entry as it is; the step throws exactly when there is code and the script raises |
| Exporting.Exporter.Postprocess | src/ca/cgjennings/seplugins/export/Exporter.java:241-257 | the entry's public fields become what the script leaves in them, or the script's exception is passed on |
| Exporting.WriteRequestFor | src/ca/cgjennings/seplugins/export/Exporter.java:259-273 | nothing is written exactly when the export path is null or empty; otherwise the write goes to that path with the entry's format, the exporter's progressive flag, compression 1 for lossless formats and the entry's quality otherwise, and PPI metadata exactly when the image was not resized |
| Exporting.Exporter.WriteImage | src/ca/cgjennings/seplugins/export/Exporter.java:259-277 | without a path nothing is written or recorded; otherwise the configured write is requested, and the output file is recorded exactly when the write does not throw |
| Exporting.Exporter.WriteEntry | src/ca/cgjennings/seplugins/export/Exporter.java:204-214 | a write that throws adds its message to the errors; either way the results match the specified step |
| Exporting.InitialEntries | src/ca/cgjennings/seplugins/export/Exporter.java:196 | one entry per face, entry k being what the `PostprocessingEntry` constructor makes for sheet k with index k (`InitialState`) |
| Exporting.Prepared | src/ca/cgjennings/seplugins/export/Exporter.java:202 | the rule itself: the constructed entry with its image replaced by `LimitDimensions(dimensionLimit, rendered, resampled)`, the effect of `applyDimensionLimits(entry)`; nothing else changes |
| Exporting.Written | src/ca/cgjennings/seplugins/export/Exporter.java:204-214 | the rule itself: an entry without an image adds nothing; otherwise `WriteRequestFor` decides, and a write appends its request and then either the path to the outputs or the writer's message to the errors |
| Exporting.Step | src/ca/cgjennings/seplugins/export/Exporter.java:191-220 | the rule itself: a halted run or a skipped face is left as it is (so a skipped face never reaches the cancellation check); otherwise the capped entry is post-processed, a script exception halts the run as escaped with no write, and else `Written` applies and an observed cancellation halts the run |
| Exporting.Fold | src/ca/cgjennings/seplugins/export/Exporter.java:190-221 | the rule itself: the empty running run for no faces, and `Step` applied to face n-1 and entry n-1 after the first n-1 faces |
| Exporting.ExportSpec | src/ca/cgjennings/seplugins/export/Exporter.java:167-223 | the rule itself: a deck file gives the empty run; an unreadable file gives the single error `CannotOpen(name)`; null or empty sheets give the single error `NoSheets(name)`; otherwise `Fold` over all faces with the entries the constructor makes |
| Exporting.Exporter.ExportFace | src/ca/cgjennings/seplugins/export/Exporter.java:196-220 | the loop body for a face that is not skipped (construct, cap, post-process, write, check cancellation) does what one `Step` specifies, and reports a script exception or a cancellation; after a script exception the results and the writer's log are exactly as before the face |
| Exporting.Exporter.ExportFaceAt | src/ca/cgjennings/seplugins/export/Exporter.java:190-220 | one iteration of the face loop, skip included, turns the results and writes for faces before `index` into those for faces up to and including `index`, a script exception included |
| Exporting.Exporter.ExportFaces | src/ca/cgjennings/seplugins/export/Exporter.java:190-221 | the loop over the sheets leaves in the results and the writer's log exactly what the fold of `Step` over all faces records, and reports the script exception that escapes, if any; the log then holds the writes of the faces before it |
| Exporting.Exporter.Export | src/ca/cgjennings/seplugins/export/Exporter.java:167-223 | for an exporter whose invariant holds, export(File) produces exactly the results and writes of `ExportSpec` (the deck, unreadable and no-sheets exits, then the face loop), and reports a script exception that escapes; the writer's log then holds exactly the writes of the faces before that exception |
| Exporting.InitialEntryAt | src/ca/cgjennings/seplugins/export/Exporter.java:196 | the entry used for face k is the one the constructor makes for sheet k with index k |
| Exporting.FoldHalted | src/ca/cgjennings/seplugins/export/Exporter.java:216-220 | once the loop has stopped, later faces change nothing |
| ExportProperties.FoldCounts | src/ca/cgjennings/seplugins/export/Exporter.java:190-221 | each write yields exactly one output or one error, and there are at most as many writes as faces |
| ExportProperties.StepAppends | src/ca/cgjennings/seplugins/export/Exporter.java:196-214 | one face only appends to outputs, errors and writes, adds at most one write, and with that write exactly one output or one error |
| ExportProperties.FoldExtends | src/ca/cgjennings/seplugins/export/Exporter.java:190-221 | the results for the first k faces are prefixes of those for the first n faces (k ≤ n): results are only appended to, in face order |
| ExportProperties.AtMostOneOutputPerFace | src/ca/cgjennings/seplugins/export/Exporter.java:204-214 | face k adds at most one output file, after those of the faces before it |
| ExportProperties.SkippedFaceAddsNothing | src/ca/cgjennings/seplugins/export/Exporter.java:191-194 | with excludeSimpleFaces, an undecorated back face changes neither list nor the writes |
| ExportProperties.WriteFailureIsRecorded | src/ca/cgjennings/seplugins/export/Exporter.java:204-214 | a write that throws appends its message to errors and no output, and the loop goes on unless cancellation is observed |
| ExportProperties.CancellationStops | src/ca/cgjennings/seplugins/export/Exporter.java:216-220 | after the first face on which cancellation is observed, later faces add nothing and the run ends cancelled |
| ExportProperties.ScriptExceptionEscapes | src/ca/cgjennings/seplugins/export/Exporter.java:203 | a post-processing exception ends export with that exception, and no write follows it |
| ExportProperties.WrittenIndices | src/ca/cgjennings/seplugins/export/Exporter.java:191-214 | a reference list of the faces written successfully, each below the number of faces considered |
| ExportProperties.WrittenIndicesIncrease | src/ca/cgjennings/seplugins/export/Exporter.java:190 | the faces written successfully are listed in strictly increasing order |
| ExportProperties.ExpectedErrors | src/ca/cgjennings/seplugins/export/Exporter.java:204-214 | the rule itself, a reference list next to `WrittenIndices`: for each face in order that is not skipped and whose write fails, `WriteFailed` of the writer's message |
| ExportProperties.PlainRun | src/ca/cgjennings/seplugins/export/Exporter.java:190-221 | with no script or cancellation, output a is the export path of the a-th face written successfully, and the errors are the write failures in face order |
| ExportProperties.PlainStep | src/ca/cgjennings/seplugins/export/Exporter.java:191-214 | with no script or cancellation, a face that is not skipped appends its export path or its write failure, and nothing else |
| ExportProperties.WriteSettings | src/ca/cgjennings/seplugins/export/Exporter.java:259-273 | every write goes to a non-empty path with the exporter's progressive flag; with no script or limit, every write also has the exporter's ppi and format, and compression 1 for lossless formats or the quality otherwise |
| ExportProperties.DeckFileIgnored | src/ca/cgjennings/seplugins/export/Exporter.java:170-174 | a deck file gives empty results and no writes |
| ExportProperties.UnreadableFileGivesOneError | src/ca/cgjennings/seplugins/export/Exporter.java:176-181 | an unreadable component gives exactly one error, which names the file, and no output |
| ExportProperties.NoSheetsGivesOneError | src/ca/cgjennings/seplugins/export/Exporter.java:183-188 | a component without sheets (null or empty) gives exactly one error, which names the file, and no output |
| ExportProperties.OutputsBoundedBySheets | src/ca/cgjennings/seplugins/export/Exporter.java:167-223 | export never reports more output files than the component has sheets |
| ExportProperties.ConstructedEntriesNamed | src/ca/cgjennings/seplugins/export/PostprocessingEntry.java:33-34 | every constructed entry has a non-empty export path, so writeImage's path guard passes for it |
| ExportProperties.PlainExport | src/ca/cgjennings/seplugins/export/Exporter.java:167-223 | without script or cancellation, export's outputs are the export paths of the faces written successfully, in face order, and the errors are the write failures in face order |
| ExportProperties.SupportedFormatsHaveNoSeparator | src/ca/cgjennings/seplugins/export/Exporter.java:66-78 | no format setFormat accepts contains a path separator |
| ExportProperties.DistinctPaths | src/ca/cgjennings/seplugins/export/PostprocessingEntry.java:44-53 | the export paths of faces listed in increasing order are pairwise different |
| ExportProperties.PlainExportDistinct | src/ca/cgjennings/seplugins/export/Exporter.java:190-221 | with a supported format and no script or cancellation, export never reports the same output file twice |
| ExportProperties.ExportWriteSettings | src/ca/cgjennings/seplugins/export/Exporter.java:259-273 | every image export asks for has a non-empty path and the exporter's progressive flag; with no script and no limit, also the exporter's format and ppi, and compression 1 for lossless formats or the quality otherwise |
| ExportProperties.ExporterOutputsDistinct | src/ca/cgjennings/seplugins/export/Exporter.java:66-78 | an exporter whose invariant holds (every state its setters reach) exports, without a script or cancellation, each face to a file of its own: the allowed formats contain no separator |
| ExportProperties.DimensionLimitStep | src/ca/cgjennings/seplugins/export/Exporter.java:229-239 | with a positive limit and no script, a face within the limit is written as rendered with the exporter's resolution, and a larger face is written resampled, with resolution metadata exactly when resampling kept its size |
| BulkExport.MemberList.Add | src/ca/cgjennings/seplugins/export/BulkExportAction.java:70 | a member is appended to the list and earlier members are kept |
| BulkExport.EonMembers | src/ca/cgjennings/seplugins/export/BulkExportAction.java:64-72 | the rule itself: the component files among the first n children, in child order, as the inner loop appends them |
| BulkExport.Contribution | src/ca/cgjennings/seplugins/export/BulkExportAction.java:63-81 | the rule itself: for a member with children, its `.eon` children (`EonMembers` over all of them) and never the member; for a leaf, the member itself when it is `.eon`, else nothing |
| BulkExport.Collected | src/ca/cgjennings/seplugins/export/BulkExportAction.java:62-82 | the rule itself: the contributions of the first n selected members, concatenated in selection order |
| BulkExport.Suitable | src/ca/cgjennings/seplugins/export/BulkExportAction.java:59-86 | the rule itself: `Collected` over the whole selection, the list `buildList` appends to a given list |
| BulkExport.Applies | src/ca/cgjennings/seplugins/export/BulkExportAction.java:59-86 | the rule itself, stated independently of the loop: some selected member is a `.eon` member without children, or some selected member has a `.eon` direct child |
| BulkExport.BuildList | src/ca/cgjennings/seplugins/export/BulkExportAction.java:59-86 | the answer is true exactly when some member is collected; a given list receives, after its previous contents, every leaf `.eon` member and every `.eon` child of a parent, in selection order; an absent list is left alone |
| BulkExport.CollectChildren | src/ca/cgjennings/seplugins/export/BulkExportAction.java:63-73 | a parent's `.eon` children are appended in child order and counted; with no list, the count is 1 if there is one and 0 otherwise (the early break) |
| BulkExport.FoundAt | src/ca/cgjennings/seplugins/export/BulkExportAction.java:66-78 | when the loop breaks early at a member that contributes something, the collecting mode's list is not empty, so both modes give the same answer |
| BulkExport.EonMembersComplete | src/ca/cgjennings/seplugins/export/BulkExportAction.java:64-71 | every `.eon` child of a parent is collected |
| BulkExport.EonMembersSound | src/ca/cgjennings/seplugins/export/BulkExportAction.java:64-71 | only `.eon` children of the parent are collected |
| BulkExport.CollectedSound | src/ca/cgjennings/seplugins/export/BulkExportAction.java:59-86 | every collected member is a `.eon` file, and is either a selected leaf or a direct child of a selected parent |
| BulkExport.LeafCollected | src/ca/cgjennings/seplugins/export/BulkExportAction.java:74-80 | every selected `.eon` leaf is collected |
| BulkExport.ChildCollected | src/ca/cgjennings/seplugins/export/BulkExportAction.java:63-72 | every `.eon` child of a selected parent is collected |
| BulkExport.ContributionCollected | src/ca/cgjennings/seplugins/export/BulkExportAction.java:62-82 | what a member contributes stays in the list collected from the members after it |
| BulkExport.AppliesIffNonEmpty | src/ca/cgjennings/seplugins/export/BulkExportAction.java:59-86 | the action applies (some member is a `.eon` leaf or has a direct `.eon` child) exactly when the collected list is non-empty |
| BulkExport.ParentNotCollected | src/ca/cgjennings/seplugins/export/BulkExportAction.java:63-74 | a selected member with children is in the list only as a `.eon` child of another selected member, never for itself, even if its name matches |
| BulkExport.CollectedAgree | src/ca/cgjennings/seplugins/export/BulkExportAction.java:62 | the list collected from the first n members depends only on those members |
| BulkExport.CollectedConcat | src/ca/cgjennings/seplugins/export/BulkExportAction.java:62-82 | collecting from a + b gives what a gives, followed by what the first n members of b give |
| BulkExport.SuitableConcat | src/ca/cgjennings/seplugins/export/BulkExportAction.java:62-82 | the list for a concatenated selection is the concatenation of the two lists: members are handled one by one, in order |
| BulkExport.AppliesToSelection | src/ca/cgjennings/seplugins/export/BulkExportAction.java:38-40 | the early-break mode answers true exactly when the action applies to the selection |
| BulkExport.PerformOnSelection | src/ca/cgjennings/seplugins/export/BulkExportAction.java:43-57 | it always reports the action handled; the dialog opens exactly when the action applies, and it shows the collected list |
| BulkExport.AppliesTo | src/ca/cgjennings/seplugins/export/BulkExportAction.java:33-35 | a single member is judged as a one-member selection |
| BulkExport.Perform | src/ca/cgjennings/seplugins/export/BulkExportAction.java:28-30 | a single member is handled as a one-member selection; the dialog shows exactly what that member contributes |

## Left out

- Rendering (`sheet.paint`), resampling (`ImageUtilities`) and image encoding (`SimpleImageWriter`) are host calls.
  - Each face carries their results as data: the rendered size, the resampled size, and the writer's exception message.
  - The scale computation is floating-point host code.
- The post-processing script engine (`ScriptMonkey`) is a foreign engine.
  - Its effect on an entry is data: untouched, fields assigned, or an exception.
  - The library imports it evaluates and its internal file name are not modelled.
- `BusyDialog` cancellation is host UI state. It is modelled as one flag per face, read after the face is done, as in the source.
- When the post-processing script throws, the exception escapes `export` (its call at `Exporter.java` line 203 is outside the `try`).
  - The model reports the message as `escaped`, and the files of earlier faces stay written, as the writer's log shows.
  - The `Results` object is then never returned to the Java caller. The model still returns it, holding what was recorded before the exception.
- Quality and resolution are reals.
  - NaN, the `float` casts in `writeImage` and `ppcm = ppi / 2.54` are floating-point details and are left out.
- A null format passed to `setFormat` throws `NullPointerException` (line 67). The model's format is a plain string, so that case is not represented.
- The values of the `SimpleImageWriter.FORMAT_*` constants belong to the host library, which is not part of this model.
  - The model uses `bmp`, `gif`, `jpg`, `jp2` and `png`.
  - The proofs only need that the names differ, contain no `/`, and include the default `png`.
- Exporting.Exporter.SetPostprocessingCodeFile: the conversion from a file path to a URL, its failure case and the log message are left out. A path is stored as given.
- `export(String)` (lines 225-227) only wraps the string in a `File` and is left out. `getAbsolutePath` and `File.getName` are modelled on absolute Unix-style paths.
- The `sheets` array and the `sheets[i] = null` assignments are left out. They only release memory, so the loop iterates over the sequence of faces.
- A write failure is modelled as an exception from `write` after the write request reaches the writer.
  - An exception while configuring the writer is not distinguished from it.
  - `getLocalizedMessage` returning null is not represented.
- `ProjectUtilities.simplify`, `matchExtension`, `hasChildren` and `getChildren` belong to the host project API.
  - A member carries its children and an "is an `.eon` file" flag instead.
  - `perform` and `appliesTo` take the simplified member.
- The inner loop of `buildList` is a separate method, `CollectChildren`. Its `break outer` becomes a return with a count of one, followed by a break in the caller.
- Left out as user-interface or plug-in lifecycle code:
  - the dialog itself and its placement;
  - localisation of the "app-err-open" message, which the model records as the file name;
  - `toString`;
  - the getters, which appear only through `Exporter.Snapshot`, the settings an entry reads;
  - the `BulkExport` plug-in class.

## Findings

| source | as written | input that shows it | evidently intended | confidence | as-written member | corrected member |
|---|---|---|---|---|---|---|
| src/ca/cgjennings/seplugins/export/PostprocessingEntry.java:39-54 | `changeExportPathExtension(extension)` defaults its argument to the format (lines 40-42) but builds the name from `format` (line 50), so the argument is never used | source `/cards/hero.eon`, index 0, format `png`, extension `jpg` gives `/cards/hero-1.png` | the path ends in the requested extension: `/cards/hero-1.jpg` | not executed | Entries.ExtensionIgnored | Entries.PostprocessingEntry.ChangeExportPathExtensionIntended |

The constructor calls the method with null (line 34), so it takes the
default. There the two versions agree, and the model keeps the method as
written: `Entries.PostprocessingEntry.ChangeExportPathExtension`.

The model also keeps a related quirk of `writeImage`. It sets progressive scan
from the exporter's own flag (`Exporter.java` line 266), so a script that assigns
the entry's public `progressive` field, documented as choosing progressive scan
(`PostprocessingEntry.java` lines 105-108), changes nothing; `WriteSettings`
states that every write carries the exporter's flag whatever the script does.
