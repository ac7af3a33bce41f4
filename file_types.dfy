/**
  File-type detection (`detect_file_type` in ion_processing.py): lower-case the
  path, take its extension the way POSIX `os.path.splitext` does, and map the
  extension through a fixed table to a format tag.
*/
module FileTypes {

  /** The logical format tags. */
  datatype FileType = Csv | Txt | Xls | Xlsx | Vector | Raster | Unknown

  /** ASCII lower-casing of one character. */
  function LowerChar(c: char): char
  {
    if 'A' <= c <= 'Z' then (c as int + 32) as char else c
  }

  /** `str.lower`, restricted to ASCII letters. */
  function Lower(s: string): (r: string)
    ensures |r| == |s|
    ensures forall k :: 0 <= k < |s| ==> r[k] == LowerChar(s[k])
  {
    seq(|s|, k requires 0 <= k < |s| => LowerChar(s[k]))
  }

  /** `str.rfind` for one character: the index of the last `c` in `s`, or -1. */
  function LastIndexOf(s: string, c: char): (r: int)
    ensures -1 <= r < |s|
    ensures r >= 0 ==> s[r] == c
    ensures forall k :: r < k < |s| ==> s[k] != c
  {
    if |s| == 0 then -1
    else if s[|s| - 1] == c then |s| - 1
    else LastIndexOf(s[..|s| - 1], c)
  }

  /** Some character of `s[lo..hi]` is not a dot. */
  predicate HasNonDot(s: string, lo: int, hi: int)
    requires 0 <= lo <= hi <= |s|
  {
    exists k :: lo <= k < hi && s[k] != '.'
  }

  /** The final `/`-separated component of a path holds a character other than `.`. */
  ghost predicate NameHasNonDot(p: string)
  {
    HasNonDot(p, LastIndexOf(p, '/') + 1, |p|)
  }

  /**
    Where `os.path.splitext` cuts a POSIX path: at the last `.`, provided that
    dot lies in the final component and is preceded there by some character
    other than a dot; otherwise at the end.
  */
  function ExtensionStart(p: string): (i: nat)
    ensures i <= |p|
  {
    var sep := LastIndexOf(p, '/');
    var dot := LastIndexOf(p, '.');
    if dot > sep && HasNonDot(p, sep + 1, dot) then dot else |p|
  }

  /** `os.path.splitext`: the root and the extension. */
  function SplitExt(p: string): (parts: (string, string))
    ensures parts.0 + parts.1 == p
    ensures parts.1 == [] || parts.1[0] == '.'
    ensures forall k :: 0 < k < |parts.1| ==> parts.1[k] != '.' && parts.1[k] != '/'
  {
    var i := ExtensionStart(p);
    (p[..i], p[i..])
  }

  /** The extension table of `detect_file_type`, as a map. */
  const EXTENSION_TABLE: map<string, FileType> :=
    map[".csv" := Csv, ".txt" := Txt, ".xls" := Xls, ".xlsx" := Xlsx,
        ".shp" := Vector, ".geojson" := Vector, ".gpkg" := Vector, ".json" := Vector, ".kml" := Vector,
        ".tif" := Raster, ".tiff" := Raster]

  /** The chain of membership tests of `detect_file_type`, in source order. */
  function ClassifyExtension(ext: string): FileType
  {
    if ext in [".csv"] then Csv
    else if ext in [".txt"] then Txt
    else if ext in [".xls"] then Xls
    else if ext in [".xlsx"] then Xlsx
    else if ext in [".shp", ".geojson", ".gpkg", ".json", ".kml"] then Vector
    else if ext in [".tif", ".tiff"] then Raster
    else Unknown
  }

  /** `detect_file_type`: classify the extension of the lower-cased path. */
  function DetectFileType(path: string): (t: FileType)
    ensures t == ClassifyExtension(Lower(SplitExt(path).1))
  {
    ExtensionIgnoresCase(path);
    ClassifyExtension(SplitExt(Lower(path)).1)
  }

  /** The if-chain returns the table's tag for the listed extensions and `unknown` for every other string. */
  lemma ClassifyFollowsTable(ext: string)
    ensures ext in EXTENSION_TABLE ==> ClassifyExtension(ext) == EXTENSION_TABLE[ext]
    ensures ext !in EXTENSION_TABLE <==> ClassifyExtension(ext) == Unknown
  {
  }

  /** Lower-casing a path first does not change its type. */
  lemma DetectIgnoresCase(path: string)
    ensures DetectFileType(Lower(path)) == DetectFileType(path)
  {
    assert Lower(Lower(path)) == Lower(path);
  }

  /** Pins down `LastIndexOf` from the three facts that characterise it. */
  lemma LastIndexOfIs(s: string, c: char, i: int)
    requires -1 <= i < |s|
    requires i >= 0 ==> s[i] == c
    requires forall k :: i < k < |s| ==> s[k] != c
    ensures LastIndexOf(s, c) == i
  {
  }

  /** Lower-casing moves no `.` and no `/`. */
  lemma LastIndexOfLower(p: string, c: char)
    requires c == '.' || c == '/'
    ensures LastIndexOf(Lower(p), c) == LastIndexOf(p, c)
  {
    LastIndexOfIs(Lower(p), c, LastIndexOf(p, c));
  }

  /** Lower-casing keeps the dots where they are. */
  lemma HasNonDotLower(p: string, lo: int, hi: int)
    requires 0 <= lo <= hi <= |p|
    ensures HasNonDot(Lower(p), lo, hi) == HasNonDot(p, lo, hi)
  {
    var q := Lower(p);
    if HasNonDot(p, lo, hi) {
      var k :| lo <= k < hi && p[k] != '.';
      assert q[k] != '.';
    }
    if HasNonDot(q, lo, hi) {
      var k :| lo <= k < hi && q[k] != '.';
      assert p[k] != '.';
    }
  }

  /** Taking the extension commutes with lower-casing. */
  lemma ExtensionIgnoresCase(p: string)
    ensures SplitExt(Lower(p)).1 == Lower(SplitExt(p).1)
  {
    LastIndexOfLower(p, '.');
    LastIndexOfLower(p, '/');
    var sep, dot := LastIndexOf(p, '/'), LastIndexOf(p, '.');
    if dot > sep {
      HasNonDotLower(p, sep + 1, dot);
    }
    var i := ExtensionStart(p);
    assert ExtensionStart(Lower(p)) == i;
    assert Lower(p)[i..] == Lower(p[i..]);
  }

  /** A dotless name after a final component with a non-dot character is exactly the extension. */
  lemma ExtensionOfName(stem: string, name: string)
    requires NameHasNonDot(stem)
    requires '.' !in name && '/' !in name
    ensures SplitExt(stem + "." + name) == (stem, "." + name)
  {
    var p := stem + "." + name;
    LastIndexOfIs(p, '.', |stem|);
    var sep := LastIndexOf(stem, '/');
    forall k | sep < k < |p|
      ensures p[k] != '/'
    {
      if k > |stem| { assert p[k] == name[k - |stem| - 1]; }
    }
    LastIndexOfIs(p, '/', sep);
    var w :| sep + 1 <= w < |stem| && stem[w] != '.';
    assert p[w] != '.';
    assert HasNonDot(p, sep + 1, |stem|);
    assert ExtensionStart(p) == |stem|;
    assert p[..|stem|] == stem;
    assert p[|stem|..] == "." + name;
  }

  /** Conversely, every non-empty extension arises that way. */
  lemma ExtensionDecomposes(p: string)
    requires SplitExt(p).1 != []
    ensures var (stem, ext) := SplitExt(p);
            && p == stem + "." + ext[1..]
            && '.' !in ext[1..] && '/' !in ext[1..]
            && NameHasNonDot(stem)
  {
    var sep, dot := LastIndexOf(p, '/'), LastIndexOf(p, '.');
    var stem := p[..dot];
    LastIndexOfIs(stem, '/', sep);
    var w :| sep + 1 <= w < dot && p[w] != '.';
    assert stem[w] != '.';
    assert HasNonDot(stem, sep + 1, |stem|);
    assert p == stem + "." + p[dot + 1..];
  }

  /** With a dotless name, detection looks up the name lower-cased, whatever case it was written in. */
  lemma DetectByName(stem: string, name: string)
    requires NameHasNonDot(stem)
    requires '.' !in name && '/' !in name
    ensures DetectFileType(stem + "." + name) == ClassifyExtension("." + Lower(name))
  {
    ExtensionOfName(stem, name);
    assert Lower("." + name) == "." + Lower(name);
  }

  /** A final component whose dots are all leading dots (or that has no dot at all) is `unknown`. */
  lemma LeadingDotsOnlyIsUnknown(p: string)
    requires forall k :: LastIndexOf(p, '/') < k < LastIndexOf(p, '.') ==> p[k] == '.'
    ensures SplitExt(p).1 == []
    ensures DetectFileType(p) == Unknown
  {
    var sep, dot := LastIndexOf(p, '/'), LastIndexOf(p, '.');
    if dot > sep {
      assert !HasNonDot(p, sep + 1, dot);
    }
    assert ExtensionStart(p) == |p|;
    assert Lower([]) == [];
  }

  /** Detection of `stem.name` for a stem with no directory part and no leading dot. */
  lemma DetectPlainName(stem: string, name: string)
    requires '/' !in stem && stem != [] && stem[0] != '.'
    requires '.' !in name && '/' !in name
    ensures DetectFileType(stem + "." + name) == ClassifyExtension("." + Lower(name))
  {
    LastIndexOfIs(stem, '/', -1);
    DetectByName(stem, name);
  }

  /** A double extension in upper case: only the last suffix counts, lower-cased. */
  lemma DetectDoubleExtension()
    ensures DetectFileType("a.tar.CSV") == Csv
  {
    assert "a.tar.CSV" == "a.tar" + "." + "CSV";
    DetectPlainName("a.tar", "CSV");
    assert "." + Lower("CSV") == ".csv" by {
      assert LowerChar('C') == 'c' && LowerChar('S') == 's' && LowerChar('V') == 'v';
    }
  }

  /** A name that is only a leading dot and a suffix has no extension. */
  lemma DetectLeadingDot()
    ensures DetectFileType(".csv") == Unknown
  {
    LastIndexOfIs(".csv", '.', 0);
    LastIndexOfIs(".csv", '/', -1);
    LeadingDotsOnlyIsUnknown(".csv");
  }

  /** A dot in a directory name is not an extension. */
  lemma DetectDotInDirectory()
    ensures DetectFileType("v1.2/data") == Unknown
  {
    LastIndexOfIs("v1.2/data", '.', 2);
    LastIndexOfIs("v1.2/data", '/', 4);
    LeadingDotsOnlyIsUnknown("v1.2/data");
  }
}
