/**
 * The export file name and path that a PostprocessingEntry derives from the
 * path of the component file it was made for: the source name up to its
 * first '.', then '-', then the face number (index + 1) in decimal, then '.',
 * then the image format, placed in the source file's parent directory.
 *
 * Paths are Unix-style absolute path strings, as java.io.File.getAbsolutePath
 * produces them; FileName and ParentDir follow File.getName and
 * File.getParent, Child follows new File(parent, child).
 */
module ExportNames {
  import opened Wrappers

  /** String.indexOf(char): the first position of c in s. */
  function IndexOf(s: string, c: char): (r: Option<nat>)
    ensures r.Some? ==> r.value < |s| && s[r.value] == c && c !in s[..r.value]
    ensures r.None? ==> c !in s
  {
    if |s| == 0 then None
    else if s[0] == c then Some(0)
    else match IndexOf(s[1..], c)
      case None => None
      case Some(k) =>
        assert s[..k + 1] == [s[0]] + s[1..][..k];
        Some(k + 1)
  }

  /** String.lastIndexOf(char): the last position of c in s. */
  function LastIndexOf(s: string, c: char): (r: Option<nat>)
    ensures r.Some? ==> r.value < |s| && s[r.value] == c && c !in s[r.value + 1..]
    ensures r.None? ==> c !in s
  {
    if |s| == 0 then None
    else if s[|s| - 1] == c then Some(|s| - 1)
    else
      var r := LastIndexOf(s[..|s| - 1], c);
      assert r.Some? ==> s[r.value + 1..] == s[..|s| - 1][r.value + 1..] + [s[|s| - 1]];
      assert r.None? ==> s == s[..|s| - 1] + [s[|s| - 1]];
      r
  }

  /**
   * The part of a file name before its first '.', or the whole name when it
   * has no dot.
   */
  function Stem(name: string): (r: string)
    ensures r <= name && '.' !in r
    ensures r == name || name[|r|] == '.'
  {
    match IndexOf(name, '.')
    case None => name
    case Some(d) => name[..d]
  }

  /** Stem is the only prefix of the name that stops at its first dot. */
  lemma StemUnique(name: string, p: string)
    requires p <= name && '.' !in p
    requires p == name || name[|p|] == '.'
    ensures p == Stem(name)
  {
  }

  /** The character of a decimal digit. */
  function DigitChar(d: nat): (c: char)
    requires d < 10
    ensures '0' <= c <= '9'
  {
    (('0' as int) + d) as char
  }

  /** The value of a decimal digit character. */
  function DigitValue(c: char): (d: nat)
    requires '0' <= c <= '9'
    ensures d < 10
  {
    (c as int) - ('0' as int)
  }

  /** Every character of s is a decimal digit. */
  predicate AllDigits(s: string) {
    |s| == 0 || (AllDigits(s[..|s| - 1]) && '0' <= s[|s| - 1] <= '9')
  }

  /** String.valueOf(int) for a non-negative value: its decimal digits. */
  function Decimal(n: nat): (r: string)
    ensures |r| >= 1 && AllDigits(r)
    ensures r[0] == '0' ==> n == 0 && r == "0"
    ensures '.' !in r && '-' !in r && '/' !in r
  {
    if n < 10 then [DigitChar(n)]
    else
      var r := Decimal(n / 10) + [DigitChar(n % 10)];
      assert r[..|r| - 1] == Decimal(n / 10);
      r
  }

  /** The value of a string of decimal digits (Integer.parseInt without a sign). */
  function ParseDecimal(s: string): nat
    requires AllDigits(s)
  {
    if |s| == 0 then 0
    else ParseDecimal(s[..|s| - 1]) * 10 + DigitValue(s[|s| - 1])
  }

  /** Decimal and ParseDecimal are inverse: the face number can be read back. */
  lemma {:induction false} DecimalRoundTrip(n: nat)
    ensures ParseDecimal(Decimal(n)) == n
  {
    if n >= 10 {
      var s := Decimal(n);
      assert s[..|s| - 1] == Decimal(n / 10);
      DecimalRoundTrip(n / 10);
    }
  }

  /** The exported image's file name for face `index` of a file named `sourceName`. */
  function ExportFileName(sourceName: string, index: nat, format: string): string {
    Stem(sourceName) + "-" + Decimal(index + 1) + "." + format
  }

  /** A normalised absolute path naming something below the root directory. */
  predicate AbsoluteFilePath(p: string) {
    |p| >= 2 && p[0] == '/' && p[|p| - 1] != '/'
  }

  /** File.getName: the part after the last separator. */
  function FileName(p: string): (r: string)
    ensures '/' !in r
    ensures |r| <= |p| && p[|p| - |r|..] == r
    ensures |r| < |p| ==> p[|p| - |r| - 1] == '/'
  {
    match LastIndexOf(p, '/')
    case None => p
    case Some(k) => p[k + 1..]
  }

  /**
   * File.getParent for an absolute path below the root: the part before the
   * last separator, or the root itself when that separator is the first
   * character.
   */
  function ParentDir(p: string): (r: string)
    requires AbsoluteFilePath(p)
    ensures |r| >= 1 && r[0] == '/' && r < p
  {
    match LastIndexOf(p, '/')
    case Some(k) => if k == 0 then "/" else p[..k]
  }

  /** new File(parent, child).getAbsolutePath() for an absolute parent. */
  function Child(dir: string, name: string): string {
    if dir == "/" then "/" + name else dir + "/" + name
  }

  /**
   * PostprocessingEntry.changeExportPathExtension: the export path of face
   * `index` of the component at `sourcePath` in the given format.
   */
  function ExportPath(sourcePath: string, index: nat, format: string): string
    requires AbsoluteFilePath(sourcePath)
  {
    Child(ParentDir(sourcePath), ExportFileName(FileName(sourcePath), index, format))
  }

  /** Splits a file name at its first '.' into the part before and the format after. */
  function SplitFormat(name: string): Option<(string, string)> {
    match IndexOf(name, '.')
    case None => None
    case Some(d) => Some((name[..d], name[d + 1..]))
  }

  /** Splits "stem-N" at its last '-' into the stem and the face index N - 1. */
  function SplitIndex(front: string): Option<(string, nat)> {
    match LastIndexOf(front, '-')
    case None => None
    case Some(k) =>
      var digits := front[k + 1..];
      if AllDigits(digits) && ParseDecimal(digits) >= 1 then Some((front[..k], ParseDecimal(digits) - 1))
      else None
  }

  /** Splits an export file name back into its stem, face index and format. */
  function ParseExportName(name: string): Option<(string, nat, string)> {
    match SplitFormat(name)
    case None => None
    case Some((front, format)) =>
      match SplitIndex(front)
      case None => None
      case Some((stem, index)) => Some((stem, index, format))
  }

  /** The first occurrence of c in a + [c] + b is at |a| when a has no c. */
  lemma {:induction false} IndexOfSplit(a: string, c: char, b: string)
    requires c !in a
    ensures IndexOf(a + [c] + b, c) == Some(|a|)
  {
    var s := a + [c] + b;
    if a != [] {
      assert s[0] == a[0] && s[1..] == a[1..] + [c] + b;
      IndexOfSplit(a[1..], c, b);
    }
  }

  /** The last occurrence of c in a + [c] + b is at |a| when b has no c. */
  lemma {:induction false} LastIndexOfSplit(a: string, c: char, b: string)
    requires c !in b
    ensures LastIndexOf(a + [c] + b, c) == Some(|a|)
  {
    var s := a + [c] + b;
    if b != [] {
      var b' := b[..|b| - 1];
      assert s[|s| - 1] == b[|b| - 1] && s[..|s| - 1] == a + [c] + b';
      LastIndexOfSplit(a, c, b');
    }
  }

  lemma SplitFormatComposed(front: string, format: string)
    requires '.' !in front
    ensures SplitFormat(front + ['.'] + format) == Some((front, format))
  {
    var name := front + ['.'] + format;
    IndexOfSplit(front, '.', format);
    assert name[..|front|] == front && name[|front| + 1..] == format;
  }

  lemma SplitIndexComposed(stem: string, digits: string)
    requires '-' !in digits && AllDigits(digits) && ParseDecimal(digits) >= 1
    ensures SplitIndex(stem + ['-'] + digits) == Some((stem, ParseDecimal(digits) - 1))
  {
    var front := stem + ['-'] + digits;
    LastIndexOfSplit(stem, '-', digits);
    assert front[..|stem|] == stem && front[|stem| + 1..] == digits;
  }

  /** ParseExportName splits stem + "-" + digits + "." + format at the right places. */
  lemma ParseComposed(stem: string, digits: string, format: string)
    requires '.' !in stem && '.' !in digits && '-' !in digits
    requires AllDigits(digits) && ParseDecimal(digits) >= 1
    ensures ParseExportName(stem + "-" + digits + "." + format)
            == Some((stem, ParseDecimal(digits) - 1, format))
  {
    var front := stem + ['-'] + digits;
    assert stem + "-" + digits + "." + format == front + ['.'] + format;
    SplitFormatComposed(front, format);
    SplitIndexComposed(stem, digits);
  }

  /** The face index and format can be recovered from every export file name. */
  lemma ExportNameRoundTrip(sourceName: string, index: nat, format: string)
    ensures ParseExportName(ExportFileName(sourceName, index, format))
            == Some((Stem(sourceName), index, format))
  {
    DecimalRoundTrip(index + 1);
    ParseComposed(Stem(sourceName), Decimal(index + 1), format);
  }

  /** Different faces of one file, or different formats, never share a file name. */
  lemma ExportFileNameInjective(sourceName: string, i: nat, j: nat, f: string, g: string)
    requires ExportFileName(sourceName, i, f) == ExportFileName(sourceName, j, g)
    ensures i == j && f == g
  {
    ExportNameRoundTrip(sourceName, i, f);
    ExportNameRoundTrip(sourceName, j, g);
  }

  /** The first face (index 0) is numbered 1 in its file name. */
  lemma FirstFaceIsNumberedOne(sourceName: string, format: string)
    ensures ExportFileName(sourceName, 0, format) == Stem(sourceName) + "-1." + format
  {
    assert Decimal(1) == "1";
  }

  /** t is a suffix of s. */
  predicate EndsWith(s: string, t: string) {
    |t| <= |s| && s[|s| - |t|..] == t
  }

  lemma EndsWithConcat(a: string, b: string, t: string)
    requires EndsWith(b, t)
    ensures EndsWith(a + b, t)
  {
    assert (a + b)[|a + b| - |t|..] == b[|b| - |t|..];
  }

  /** The export file name ends with '.' followed by the format. */
  lemma ExportFileNameEndsWithFormat(sourceName: string, index: nat, format: string)
    ensures EndsWith(ExportFileName(sourceName, index, format), "." + format)
  {
    assert ExportFileName(sourceName, index, format)
        == (Stem(sourceName) + "-" + Decimal(index + 1)) + ("." + format);
    EndsWithConcat(Stem(sourceName) + "-" + Decimal(index + 1), "." + format, "." + format);
  }

  /** The export file name contains no separator when the format has none. */
  lemma ExportFileNameHasNoSeparator(sourceName: string, index: nat, format: string)
    requires '/' !in sourceName && '/' !in format
    ensures '/' !in ExportFileName(sourceName, index, format)
  {
    var stem := Stem(sourceName);
    assert '/' !in stem by {
      forall k | 0 <= k < |stem| ensures stem[k] != '/' {
        assert stem[k] == sourceName[k];
      }
    }
  }

  /**
   * An absolute path is its parent directory and its file name joined by a
   * separator; it is new File(parent, name) unless the parent is the root
   * written as a doubled separator.
   */
  lemma PathParts(p: string)
    requires AbsoluteFilePath(p)
    ensures p == ParentDir(p) + "/" + FileName(p) || (ParentDir(p) == "/" && p == "/" + FileName(p))
    ensures ParentDir(p) != "/" ==> p == Child(ParentDir(p), FileName(p))
  {
    var k := LastIndexOf(p, '/').value;
    if k > 0 {
      assert p == p[..k] + "/" + p[k + 1..];
    } else {
      assert p == "/" + p[1..];
    }
  }

  /** File.getParent and File.getName undo new File(dir, name). */
  lemma ChildParts(dir: string, name: string)
    requires |dir| >= 1 && dir[0] == '/' && |name| >= 1 && '/' !in name
    ensures AbsoluteFilePath(Child(dir, name))
    ensures ParentDir(Child(dir, name)) == dir && FileName(Child(dir, name)) == name
  {
    var e := Child(dir, name);
    var front := if dir == "/" then [] else dir;
    assert e == front + ['/'] + name;
    assert e[|e| - 1] == name[|name| - 1];
    LastIndexOfSplit(front, '/', name);
    assert e[|front| + 1..] == name;
    assert e[..|front|] == front;
  }

  /**
   * The export path lies in the source file's directory, carries the export
   * file name, and ends with '.' followed by the format.
   */
  lemma ExportPathShape(sourcePath: string, index: nat, format: string)
    requires AbsoluteFilePath(sourcePath) && '/' !in format
    ensures var e := ExportPath(sourcePath, index, format);
            && AbsoluteFilePath(e)
            && ParentDir(e) == ParentDir(sourcePath)
            && FileName(e) == ExportFileName(FileName(sourcePath), index, format)
            && EndsWith(e, "." + format)
  {
    var dir := ParentDir(sourcePath);
    var name := ExportFileName(FileName(sourcePath), index, format);
    ExportFileNameHasNoSeparator(FileName(sourcePath), index, format);
    ChildParts(dir, name);
    ExportFileNameEndsWithFormat(FileName(sourcePath), index, format);
    var front := if dir == "/" then "/" else dir + "/";
    assert Child(dir, name) == front + name;
    EndsWithConcat(front, name, "." + format);
  }

  /** Two faces of one source file never share an export path. */
  lemma ExportPathInjective(sourcePath: string, i: nat, j: nat, format: string)
    requires AbsoluteFilePath(sourcePath) && '/' !in format
    requires ExportPath(sourcePath, i, format) == ExportPath(sourcePath, j, format)
    ensures i == j
  {
    ExportPathShape(sourcePath, i, format);
    ExportPathShape(sourcePath, j, format);
    ExportFileNameInjective(FileName(sourcePath), i, j, format, format);
  }
}
