/**
  The routing of `load_data_from_url` (ion_processing.py): which reader runs on
  which input, when the archive is extracted to the scratch directory
  `extracted_data`, and whether the call returns data or raises.

  The HTTP fetch happens before everything modelled here; the readers, the
  archive calls and the reprojection are foreign code, so their outcomes are
  given as `Oracles`. A loaded value is described by where it came from: the
  reader that produced it, the input that reader was given and, for a vector
  frame, the reference system it was projected into.
*/
module Loader {
  import opened Wrappers
  import opened FileTypes
  import opened ReferenceSystems

  /** The reader functions the loader can call. */
  datatype Reader =
    | DelimitedText   // pd.read_csv
    | LegacyExcel     // pd.read_excel with engine xlrd
    | ModernExcel     // pd.read_excel with engine openpyxl
    | VectorFile      // gpd.read_file
    | RasterFile      // rasterio.open

  /** The input handed to a reader. */
  datatype Source =
    | ResponseBody                    // the downloaded bytes, as a buffer
    | ArchiveMember(member: string)   // a member opened inside the zip archive
    | ExtractedFile(path: string)     // a file under the scratch directory

  /** A loaded frame or raster handle: its reader, its input and, for a vector frame, its CRS. */
  datatype Dataset = Dataset(reader: Reader, source: Source, crs: Option<Crs>)

  /** Why a call raises instead of returning. */
  datatype LoadError =
    | NotAZipArchive                              // zipfile.ZipFile rejects the payload
    | MissingFilepath                             // ValueError: zipped without a member path
    | UrlNotReadable                              // ValueError: the csv fallback for an unknown type failed
    | ReaderRaised(reader: Reader, source: Source) // a reader's exception, propagated
    | ReprojectionRaised                          // to_crs raised
    | DataUnbound                                 // `return data` with `data` never assigned

  /** The outcomes of the foreign calls one invocation makes. */
  datatype Oracles = Oracles(
    archiveOpens: bool,               // zipfile.ZipFile(...) accepts the payload
    memberOpens: bool,                // zip_file.open(filepath) finds the member
    parses: (Reader, Source) -> bool, // the reader returns rather than raises on that input
    reprojects: bool)                 // to_crs(target) returns rather than raises

  /** The fixed name of the scratch directory. */
  const SCRATCH_DIR := "extracted_data"

  /** `os.path.join('extracted_data', filepath)`: an absolute member path replaces the directory. */
  function ScratchPath(filepath: string): (path: string)
    ensures |path| >= |filepath| && path[|path| - |filepath|..] == filepath
    ensures filepath != [] && filepath[0] == '/' ==> path == filepath
    ensures (filepath == [] || filepath[0] != '/') ==>
              |path| == |SCRATCH_DIR| + 1 + |filepath| && path[..|SCRATCH_DIR| + 1] == SCRATCH_DIR + "/"
  {
    if filepath != [] && filepath[0] == '/' then filepath else SCRATCH_DIR + "/" + filepath
  }

  /** Only a vector frame is reprojected, and only its record names the target CRS. */
  predicate Normalised(d: Dataset, target: Crs)
  {
    if d.reader == VectorFile then d.crs == Some(target) else d.crs == None
  }

  /** One reader call; a vector frame is then reprojected into `target`. */
  function Read(reader: Reader, source: Source, target: Crs, env: Oracles): (r: Result<Dataset, LoadError>)
    ensures r.Success? <==> env.parses(reader, source) && (reader == VectorFile ==> env.reprojects)
    ensures r.Success? ==> r.value.reader == reader && r.value.source == source
    ensures r.Success? ==> Normalised(r.value, target)
    ensures r.Failure? && !env.parses(reader, source) ==> r.error == ReaderRaised(reader, source)
    ensures r.Failure? && env.parses(reader, source) ==> r.error == ReprojectionRaised
  {
    if !env.parses(reader, source) then Failure(ReaderRaised(reader, source))
    else if reader != VectorFile then Success(Dataset(reader, source, None))
    else if env.reprojects then Success(Dataset(reader, source, Some(target)))
    else Failure(ReprojectionRaised)
  }

  /** The reader for a type outside an archive: csv and txt share the text reader, unknown falls back on it. */
  function UnzippedReader(t: FileType): Reader
  {
    match t
    case Csv | Txt | Unknown => DelimitedText
    case Xls => LegacyExcel
    case Xlsx => ModernExcel
    case Vector => VectorFile
    case Raster => RasterFile
  }

  /** The reader the try block calls on the open member; none for the other types. */
  function DirectReader(t: FileType): Option<Reader>
  {
    match t
    case Csv => Some(DelimitedText)
    case Xls => Some(LegacyExcel)
    case Xlsx => Some(ModernExcel)
    case _ => None
  }

  /** The reader the except block calls on the extracted file; none for txt and unknown. */
  function ExtractedReader(t: FileType): Option<Reader>
  {
    match t
    case Csv => Some(DelimitedText)
    case Xls => Some(LegacyExcel)
    case Xlsx => Some(ModernExcel)
    case Vector => Some(VectorFile)
    case Raster => Some(RasterFile)
    case _ => None
  }

  /** The try block raises: the member is missing, the type needs extraction, or the direct read raised. */
  predicate TryRaises(t: FileType, member: string, env: Oracles)
  {
    || !env.memberOpens
    || t == Vector || t == Raster
    || (DirectReader(t).Some? && !env.parses(DirectReader(t).value, ArchiveMember(member)))
  }

  /** The extraction branch runs in this call. */
  predicate Extracts(zipped: bool, filepath: Option<string>, env: Oracles)
  {
    zipped && env.archiveOpens && filepath.Some? && TryRaises(DetectFileType(filepath.value), filepath.value, env)
  }

  /** The except block's load from the extracted file: `Success(None)` when no branch assigns `data`. */
  function LoadExtracted(t: FileType, member: string, target: Crs, env: Oracles): (r: Result<Option<Dataset>, LoadError>)
    ensures r.Success? && r.value.Some? ==> r.value.value.source == ExtractedFile(ScratchPath(member))
    ensures r.Success? && r.value.Some? ==> Normalised(r.value.value, target)
    ensures r.Failure? ==> r.error.ReaderRaised? || r.error == ReprojectionRaised
    ensures r.Success? && r.value.None? <==> ExtractedReader(t).None?
  {
    match ExtractedReader(t)
    case None => Success(None)
    case Some(reader) =>
      var loaded := Read(reader, ExtractedFile(ScratchPath(member)), target, env);
      if loaded.Failure? then Failure(loaded.error) else Success(Some(loaded.value))
  }

  /** `load_data_from_url` without an archive, for a URL of detected type `t`: the type picks the reader. */
  function LoadUnzipped(t: FileType, target: Crs, env: Oracles): (r: Result<Dataset, LoadError>)
    ensures r.Success? ==> r.value.source == ResponseBody && Normalised(r.value, target)
    ensures r.Success? ==> r.value.reader == UnzippedReader(t)
    ensures t == Unknown ==>
              r == (if env.parses(DelimitedText, ResponseBody)
                    then Success(Dataset(DelimitedText, ResponseBody, None))
                    else Failure(UrlNotReadable))
    ensures r.Failure? && r.error == UrlNotReadable ==> t == Unknown
    ensures r.Failure? ==> r.error != DataUnbound && r.error != MissingFilepath
  {
    var loaded := Read(UnzippedReader(t), ResponseBody, target, env);
    if t == Unknown && loaded.Failure? then Failure(UrlNotReadable) else loaded
  }

  /** `load_data_from_url` with an archive, once it has opened and a member path of detected type `t` is given. */
  function LoadZipped(t: FileType, member: string, target: Crs, env: Oracles): (r: Result<Dataset, LoadError>)
    ensures t == Txt || t == Unknown ==> r.Failure?
    ensures r.Success? && r.value.source != ArchiveMember(member) ==>
              TryRaises(t, member, env) && r.value.source == ExtractedFile(ScratchPath(member))
    ensures r.Success? && r.value.source == ArchiveMember(member) ==>
              !TryRaises(t, member, env) && r.value.crs == None
    ensures r.Success? ==> Normalised(r.value, target)
  {
    if TryRaises(t, member, env) then
      var extracted := LoadExtracted(t, member, target, env);
      if extracted.Failure? then Failure(extracted.error)
      else if extracted.value.None? then Failure(DataUnbound)
      else Success(extracted.value.value)
    else
      match DirectReader(t)
      case None => Failure(DataUnbound)
      case Some(reader) => Success(Dataset(reader, ArchiveMember(member), None))
  }

  /** What `load_data_from_url(url, zipped, filepath)` returns or raises. */
  function Load(url: string, zipped: bool, filepath: Option<string>, target: Crs, env: Oracles): (r: Result<Dataset, LoadError>)
    ensures r.Success? ==> Normalised(r.value, target)
    ensures zipped && env.archiveOpens && filepath.None? ==> r == Failure(MissingFilepath)
    ensures zipped && !env.archiveOpens ==> r == Failure(NotAZipArchive)
    ensures zipped && env.archiveOpens && filepath.Some? ==>
              r == LoadZipped(DetectFileType(filepath.value), filepath.value, target, env)
  {
    if !zipped then LoadUnzipped(DetectFileType(url), target, env)
    else if !env.archiveOpens then Failure(NotAZipArchive)
    else if filepath.None? then Failure(MissingFilepath)
    else LoadZipped(DetectFileType(filepath.value), filepath.value, target, env)
  }

  /** Whether `extracted_data` exists after the call, given whether it existed before. */
  function ScratchAfter(before: bool, zipped: bool, filepath: Option<string>, target: Crs, env: Oracles): (after: bool)
    ensures !Extracts(zipped, filepath, env) ==> after == before
  {
    if Extracts(zipped, filepath, env) then
      LoadExtracted(DetectFileType(filepath.value), filepath.value, target, env).Failure?
    else before
  }

  /**
    Without an archive, each type's reader runs on the buffer and its outcome
    is the call's: csv and txt go to the text reader, vector is reprojected,
    unknown falls back on text.
  */
  lemma UnzippedRouting(url: string, target: Crs, env: Oracles)
    ensures var t, r := DetectFileType(url), Load(url, false, None, target, env);
            && (t == Csv || t == Txt ==> r == Read(DelimitedText, ResponseBody, target, env))
            && (t == Xls ==> r == Read(LegacyExcel, ResponseBody, target, env))
            && (t == Xlsx ==> r == Read(ModernExcel, ResponseBody, target, env))
            && (t == Vector ==> r == Read(VectorFile, ResponseBody, target, env))
            && (t == Raster ==> r == Read(RasterFile, ResponseBody, target, env))
            && (t == Vector && r.Success? ==> r.value.crs == Some(target))
            && (t == Unknown && r.Failure? ==> r.error == UrlNotReadable)
  {
    assert Load(url, false, None, target, env) == LoadUnzipped(DetectFileType(url), target, env);
  }

  /** Zipped without a member path raises before any reader runs, whatever the readers would do. */
  lemma ZippedWithoutFilepath(url: string, before: bool, target: Crs, env: Oracles)
    requires env.archiveOpens
    ensures Load(url, true, None, target, env) == Failure(MissingFilepath)
    ensures ScratchAfter(before, true, None, target, env) == before
  {
  }

  /** Inside an archive, vector and raster are only ever read from the extracted file. */
  lemma ZippedVectorRasterExtract(t: FileType, member: string, target: Crs, env: Oracles)
    requires t == Vector || t == Raster
    ensures TryRaises(t, member, env)
    ensures LoadZipped(t, member, target, env)
            == Read(ExtractedReader(t).value, ExtractedFile(ScratchPath(member)), target, env)
  {
  }

  /** Inside an archive, csv, xls and xlsx are read in place, and from the extracted file only if that raised. */
  lemma ZippedTablesFallBack(t: FileType, member: string, target: Crs, env: Oracles)
    requires DirectReader(t).Some?
    ensures var reader := DirectReader(t).value;
            var direct := env.memberOpens && env.parses(reader, ArchiveMember(member));
            && (direct ==> LoadZipped(t, member, target, env) == Success(Dataset(reader, ArchiveMember(member), None)))
            && (!direct ==> LoadZipped(t, member, target, env) == Read(reader, ExtractedFile(ScratchPath(member)), target, env))
  {
  }

  /** A txt or unknown member never binds `data`, so the call raises instead of returning. */
  lemma ZippedTextNeverReturns(t: FileType, member: string, target: Crs, env: Oracles)
    requires t == Txt || t == Unknown
    ensures LoadZipped(t, member, target, env) == Failure(DataUnbound)
  {
  }

  /**
    `extracted_data` changes only in the extraction branch; there it is
    removed when the load from it returns (even if `data` stays unbound) and
    left behind exactly when that load raises.
  */
  lemma ScratchLifecycle(before: bool, url: string, zipped: bool, filepath: Option<string>, target: Crs, env: Oracles)
    ensures var after, r := ScratchAfter(before, zipped, filepath, target, env), Load(url, zipped, filepath, target, env);
            && (!Extracts(zipped, filepath, env) ==> after == before)
            && (Extracts(zipped, filepath, env) ==> (after <==> r.Failure? && r.error != DataUnbound))
            && (Extracts(zipped, filepath, env) && r.Success? ==> !after)
  {
  }

  /** A csv, xls or xlsx member that opens and parses in place is returned from the archive; nothing is extracted. */
  lemma ZippedReadsInPlace(url: string, member: string, before: bool, target: Crs, env: Oracles)
    requires env.archiveOpens && env.memberOpens
    ensures var reader := DirectReader(DetectFileType(member));
            reader.Some? && env.parses(reader.value, ArchiveMember(member)) ==>
              && Load(url, true, Some(member), target, env) == Success(Dataset(reader.value, ArchiveMember(member), None))
              && ScratchAfter(before, true, Some(member), target, env) == before
  {
    var t := DetectFileType(member);
    if DirectReader(t).Some? {
      ZippedTablesFallBack(t, member, target, env);
    }
  }

  /**
    The call the module-level script makes: when the archive and the member
    open and the member parses in place, `Major_Ions.csv` is read in place
    with the text reader and nothing is extracted. The name is spelled as a
    concatenation of its stem, the dot and its suffix, the shape
    `DetectPlainName` speaks about.
  */
  lemma ScriptLoadReadsInPlace(url: string, before: bool, target: Crs, env: Oracles)
    requires env.archiveOpens && env.memberOpens
    requires env.parses(DelimitedText, ArchiveMember("Major_Ions" + "." + "csv"))
    ensures Load(url, true, Some("Major_Ions" + "." + "csv"), target, env)
            == Success(Dataset(DelimitedText, ArchiveMember("Major_Ions" + "." + "csv"), None))
    ensures ScratchAfter(before, true, Some("Major_Ions" + "." + "csv"), target, env) == before
  {
    DetectPlainName("Major_Ions", "csv");
    assert "." + Lower("csv") == ".csv" by {
      assert LowerChar('c') == 'c' && LowerChar('s') == 's' && LowerChar('v') == 'v';
    }
    ZippedReadsInPlace(url, "Major_Ions" + "." + "csv", before, target, env);
  }

  /**
    The working directory of the process as far as the loader touches it, and
    the target reference system (`saws_crs`) every geospatial frame is
    projected into.
  */
  class Workspace {
    /** Whether the directory `extracted_data` exists. */
    var scratchExists: bool
    const targetCrs: Crs

    constructor (targetCrs: Crs, scratchExists: bool)
      ensures this.targetCrs == targetCrs && this.scratchExists == scratchExists
    {
      this.targetCrs := targetCrs;
      this.scratchExists := scratchExists;
    }

    /** `load_data_from_url`, following the source's branches and its try/except. */
    method LoadDataFromUrl(url: string, zipped: bool, filepath: Option<string>, env: Oracles)
      returns (r: Result<Dataset, LoadError>)
      modifies this
      ensures r == Load(url, zipped, filepath, targetCrs, env)
      ensures scratchExists == ScratchAfter(old(scratchExists), zipped, filepath, targetCrs, env)
    {
      if !zipped {
        r := ReadResponse(url, env);
        return;
      }
      if !env.archiveOpens { return Failure(NotAZipArchive); }
      if filepath.None? { return Failure(MissingFilepath); }
      var member := filepath.value;
      var fileType := DetectFileType(member);
      var raised, data := TryDirectRead(fileType, member, env);
      if raised {
        var extracted := ExtractAndRead(fileType, member, env);
        if extracted.Failure? { return Failure(extracted.error); }
        data := extracted.value;
      }
      if data.None? { return Failure(DataUnbound); }
      return Success(data.value);
    }

    /** The branch for a payload that is not an archive: the type of the URL picks the reader. */
    method ReadResponse(url: string, env: Oracles) returns (r: Result<Dataset, LoadError>)
      ensures r == LoadUnzipped(DetectFileType(url), targetCrs, env)
    {
      var fileType := DetectFileType(url);
      if fileType == Csv || fileType == Txt {
        r := Read(DelimitedText, ResponseBody, targetCrs, env);
      } else if fileType == Xls {
        r := Read(LegacyExcel, ResponseBody, targetCrs, env);
      } else if fileType == Xlsx {
        r := Read(ModernExcel, ResponseBody, targetCrs, env);
      } else if fileType == Vector {
        r := Read(VectorFile, ResponseBody, targetCrs, env);
      } else if fileType == Raster {
        r := Read(RasterFile, ResponseBody, targetCrs, env);
      } else {
        // fallback on csv; any exception becomes a ValueError
        r := Read(DelimitedText, ResponseBody, targetCrs, env);
        if r.Failure? { r := Failure(UrlNotReadable); }
      }
    }

    /**
      The try block: open the member and read it in place. `raised` says
      whether anything in the block raised; vector and raster always do.
    */
    method TryDirectRead(fileType: FileType, member: string, env: Oracles)
      returns (raised: bool, data: Option<Dataset>)
      ensures raised == TryRaises(fileType, member, env)
      ensures !raised ==> data == match DirectReader(fileType)
                                  case None => None
                                  case Some(reader) => Some(Dataset(reader, ArchiveMember(member), None))
    {
      raised, data := false, None;
      if !env.memberOpens {
        raised := true;
      } else if fileType == Csv {
        var loaded := Read(DelimitedText, ArchiveMember(member), targetCrs, env);
        if loaded.Failure? { raised := true; } else { data := Some(loaded.value); }
      } else if fileType == Xls {
        var loaded := Read(LegacyExcel, ArchiveMember(member), targetCrs, env);
        if loaded.Failure? { raised := true; } else { data := Some(loaded.value); }
      } else if fileType == Xlsx {
        var loaded := Read(ModernExcel, ArchiveMember(member), targetCrs, env);
        if loaded.Failure? { raised := true; } else { data := Some(loaded.value); }
      } else if fileType == Vector || fileType == Raster {
        raised := true;  // NotImplementedError: these require extraction
      }
    }

    /**
      The except block: extract the whole archive into `extracted_data`, read
      the member from there, and remove the directory, which a raising read
      skips.
    */
    method ExtractAndRead(fileType: FileType, member: string, env: Oracles)
      returns (r: Result<Option<Dataset>, LoadError>)
      modifies this
      ensures r == LoadExtracted(fileType, member, targetCrs, env)
      ensures scratchExists == r.Failure?
    {
      scratchExists := true;
      var fullPath := ScratchPath(member);
      var loaded: Result<Dataset, LoadError>;
      if fileType == Csv {
        loaded := Read(DelimitedText, ExtractedFile(fullPath), targetCrs, env);
      } else if fileType == Xls {
        loaded := Read(LegacyExcel, ExtractedFile(fullPath), targetCrs, env);
      } else if fileType == Xlsx {
        loaded := Read(ModernExcel, ExtractedFile(fullPath), targetCrs, env);
      } else if fileType == Vector {
        loaded := Read(VectorFile, ExtractedFile(fullPath), targetCrs, env);
      } else if fileType == Raster {
        loaded := Read(RasterFile, ExtractedFile(fullPath), targetCrs, env);
      } else {
        scratchExists := false;
        return Success(None);
      }
      assert loaded == Read(ExtractedReader(fileType).value, ExtractedFile(fullPath), targetCrs, env);
      if loaded.Failure? { return Failure(loaded.error); }
      scratchExists := false;
      return Success(Some(loaded.value));
    }
  }
}
