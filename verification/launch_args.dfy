/**
  The argument string `ZedProcess.OpenProject` hands to the editor
  executable: the quoted project root and a space, then, when a file is
  given, the quoted file followed by `:line` and `:line:column` suffixes
  outside the quotes.

  `ParseArgs` reads that format back; the round trip shows that the
  string determines exactly the target the guards in the builder let
  through.
 */
module LaunchArgs {
  import opened CSharp

  const QuoteChar: char := '"'

  function Quoted(s: string): string {
    [QuoteChar] + s + [QuoteChar]
  }

  /** `"<root>" ` — the part of the argument string that is always present. */
  function RootPrefix(projectRoot: string): string {
    Quoted(projectRoot) + " "
  }

  /** The `:line` or `:line:column` suffix; a column only ever follows a line. */
  function PositionSuffix(line: int32, column: int32): string {
    if line < 0 then ""
    else if column < 0 then ":" + DecimalString(line as int)
    else ":" + DecimalString(line as int) + ":" + DecimalString(column as int)
  }

  /** The argument string built for the project root and the optional file target. */
  function BuildArgs(projectRoot: string, filePath: Option<string>, line: int32, column: int32): (r: string)
    ensures |RootPrefix(projectRoot)| <= |r| && r[..|RootPrefix(projectRoot)|] == RootPrefix(projectRoot)
    ensures r == RootPrefix(projectRoot) <==> IsNullOrEmpty(filePath)
  {
    if IsNullOrEmpty(filePath) then RootPrefix(projectRoot)
    else RootPrefix(projectRoot) + Quoted(filePath.value) + PositionSuffix(line, column)
  }

  /** Where the cursor goes in the opened file. */
  datatype Position = NoPosition | Line(line: nat) | LineColumn(line: nat, column: nat)

  datatype FileTarget = FileTarget(path: string, position: Position)

  /**
    What an argument string asks the editor to open: a project root and at
    most one file; a line only with a file, a column only with a line.
   */
  datatype Target = Target(projectRoot: string, file: Option<FileTarget>)

  /** The target the builder's guards let through for the given call. */
  function Requested(projectRoot: string, filePath: Option<string>, line: int32, column: int32): Target {
    if IsNullOrEmpty(filePath) then Target(projectRoot, None)
    else
      var position :=
        if line < 0 then NoPosition
        else if column < 0 then Line(line as int)
        else LineColumn(line as int, column as int);
      Target(projectRoot, Some(FileTarget(filePath.value, position)))
  }

  /** Position of the first `c` in `s`. */
  function IndexOf(s: string, c: char): (r: Option<nat>)
    ensures r.None? <==> c !in s
    ensures r.Some? ==> r.value < |s| && s[r.value] == c && c !in s[..r.value]
  {
    if |s| == 0 then None
    else if s[0] == c then Some(0)
    else
      match IndexOf(s[1..], c)
      case None => None
      case Some(k) =>
        assert s[..k + 1] == [s[0]] + s[1..][..k];
        Some(k + 1)
  }

  /** Reads a `:line` or `:line:column` suffix (or nothing). */
  function ParsePosition(u: string): Option<Position> {
    if |u| == 0 then Some(NoPosition)
    else if u[0] != ':' then None
    else
      var v := u[1..];
      match IndexOf(v, ':')
      case None =>
        (match ParseDecimal(v)
         case None => None
         case Some(l) => Some(Line(l)))
      case Some(j) =>
        (match (ParseDecimal(v[..j]), ParseDecimal(v[j + 1..]))
         case (Some(l), Some(c)) => Some(LineColumn(l, c))
         case _ => None)
  }

  /** Reads the text after the root prefix: nothing, or a quoted non-empty file and a position suffix. */
  function ParseFileToken(t: string): Option<Option<FileTarget>> {
    if |t| == 0 then Some(None)
    else if t[0] != QuoteChar then None
    else
      match IndexOf(t[1..], QuoteChar)
      case None => None
      case Some(k) =>
        if k == 0 then None
        else
          match ParsePosition(t[k + 2..])
          case None => None
          case Some(p) => Some(Some(FileTarget(t[1..k + 1], p)))
  }

  /** Reads an argument string of the form the builder produces. */
  function ParseArgs(s: string): Option<Target> {
    if |s| == 0 || s[0] != QuoteChar then None
    else
      match IndexOf(s[1..], QuoteChar)
      case None => None
      case Some(k) =>
        var rest := s[k + 2..];
        if |rest| == 0 || rest[0] != ' ' then None
        else
          match ParseFileToken(rest[1..])
          case None => None
          case Some(file) => Some(Target(s[1..k + 1], file))
  }

  /** The first `c` in `a + [c] + b` is the one after `a` when `a` has none. */
  lemma IndexOfAfter(a: string, c: char, b: string)
    requires c !in a
    ensures IndexOf(a + [c] + b, c) == Some(|a|)
  {
    var s := a + [c] + b;
    assert s[|a|] == c;
    var k := IndexOf(s, c).value;
    assert s[..k][..] == s[..k];
    forall i | 0 <= i < k
      ensures s[i] != c
    {
      assert s[..k][i] == s[i];
    }
    forall i | 0 <= i < |a|
      ensures s[i] != c
    {
      assert s[i] == a[i];
    }
  }

  lemma DigitsHaveNoColon(ds: string)
    requires AllDigits(ds)
    ensures ':' !in ds
  {
  }

  lemma ParseLineSuffix(n: nat)
    ensures ParsePosition(":" + DecimalString(n)) == Some(Line(n))
  {
  }

  lemma ParseColonSeparated(ls: string, cs: string)
    requires ':' !in ls
    ensures ParsePosition(":" + ls + ":" + cs) ==
      match (ParseDecimal(ls), ParseDecimal(cs))
      case (Some(l), Some(c)) => Some(LineColumn(l, c))
      case _ => None
  {
    var u := ":" + ls + ":" + cs;
    var v := u[1..];
    assert v == ls + [':'] + cs;
    IndexOfAfter(ls, ':', cs);
    assert v[..|ls|] == ls;
    assert v[|ls| + 1..] == cs;
  }

  lemma ParseLineColumnSuffix(n: nat, m: nat)
    ensures ParsePosition(":" + DecimalString(n) + ":" + DecimalString(m)) == Some(LineColumn(n, m))
  {
    ParseDecimalString(n);
    ParseDecimalString(m);
    DigitsHaveNoColon(DecimalString(n));
    ParseColonSeparated(DecimalString(n), DecimalString(m));
  }

  /** The position suffix reads back as the position the guards admitted. */
  lemma ParsePositionSuffix(line: int32, column: int32)
    ensures ParsePosition(PositionSuffix(line, column)) ==
      Some(if line < 0 then NoPosition
           else if column < 0 then Line(line as int)
           else LineColumn(line as int, column as int))
  {
    if line >= 0 {
      if column < 0 {
        ParseLineSuffix(line as int);
      } else {
        ParseLineColumnSuffix(line as int, column as int);
      }
    }
  }

  /** After a quote-free quoted root and a space, the reader goes on with the file token. */
  lemma ParseArgsAfterRoot(projectRoot: string, t: string)
    requires QuoteChar !in projectRoot
    ensures ParseArgs(RootPrefix(projectRoot) + t) ==
      match ParseFileToken(t)
      case None => None
      case Some(file) => Some(Target(projectRoot, file))
  {
    var s := RootPrefix(projectRoot) + t;
    var n := |projectRoot|;
    assert s[1..] == projectRoot + [QuoteChar] + (" " + t);
    IndexOfAfter(projectRoot, QuoteChar, " " + t);
    assert s[n + 2..] == " " + t;
    assert (" " + t)[1..] == t;
    assert s[1..n + 1] == projectRoot;
  }

  /** A quote-free non-empty quoted file is read back, and the reader goes on with the suffix. */
  lemma ParseQuotedFile(f: string, suffix: string)
    requires |f| > 0 && QuoteChar !in f
    ensures ParseFileToken(Quoted(f) + suffix) ==
      match ParsePosition(suffix)
      case None => None
      case Some(p) => Some(Some(FileTarget(f, p)))
  {
    var t := Quoted(f) + suffix;
    assert t[1..] == f + [QuoteChar] + suffix;
    IndexOfAfter(f, QuoteChar, suffix);
    assert t[|f| + 2..] == suffix;
    assert t[1..|f| + 1] == f;
  }

  /**
    Reading back the argument string recovers exactly the requested target,
    provided neither path contains a double quote (the builder does not
    escape them).
   */
  lemma ParseBuildArgs(projectRoot: string, filePath: Option<string>, line: int32, column: int32)
    requires QuoteChar !in projectRoot
    requires filePath.Some? ==> QuoteChar !in filePath.value
    ensures ParseArgs(BuildArgs(projectRoot, filePath, line, column)) == Some(Requested(projectRoot, filePath, line, column))
  {
    if IsNullOrEmpty(filePath) {
      ParseArgsAfterRoot(projectRoot, "");
      assert RootPrefix(projectRoot) + "" == RootPrefix(projectRoot);
    } else {
      var suffix := PositionSuffix(line, column);
      var t := Quoted(filePath.value) + suffix;
      assert BuildArgs(projectRoot, filePath, line, column) == RootPrefix(projectRoot) + t;
      ParsePositionSuffix(line, column);
      var p := ParsePosition(suffix).value;
      ParseQuotedFile(filePath.value, suffix);
      assert ParseFileToken(t) == Some(Some(FileTarget(filePath.value, p)));
      ParseArgsAfterRoot(projectRoot, t);
    }
  }

  /** Two calls produce the same argument string only when they request the same target. */
  lemma BuildArgsUnambiguous(
    root1: string, file1: Option<string>, line1: int32, column1: int32,
    root2: string, file2: Option<string>, line2: int32, column2: int32)
    requires QuoteChar !in root1 && (file1.Some? ==> QuoteChar !in file1.value)
    requires QuoteChar !in root2 && (file2.Some? ==> QuoteChar !in file2.value)
    requires BuildArgs(root1, file1, line1, column1) == BuildArgs(root2, file2, line2, column2)
    ensures Requested(root1, file1, line1, column1) == Requested(root2, file2, line2, column2)
  {
    ParseBuildArgs(root1, file1, line1, column1);
    ParseBuildArgs(root2, file2, line2, column2);
  }

  /** With no file, line and column are ignored: the string is the root prefix alone. */
  lemma NoFileIgnoresPosition(projectRoot: string, filePath: Option<string>, line: int32, column: int32)
    requires IsNullOrEmpty(filePath)
    ensures BuildArgs(projectRoot, filePath, line, column) == Quoted(projectRoot) + " "
  {
  }

  /** A negative line suppresses the whole suffix, whatever the column. */
  lemma NegativeLineHasNoSuffix(projectRoot: string, file: string, line: int32, column: int32)
    requires |file| > 0 && line < 0
    ensures BuildArgs(projectRoot, Some(file), line, column) == Quoted(projectRoot) + " " + Quoted(file)
  {
  }

  /** A line without a column: `"file":line`. */
  lemma LineWithoutColumn(projectRoot: string, file: string, line: int32, column: int32)
    requires |file| > 0 && line >= 0 && column < 0
    ensures BuildArgs(projectRoot, Some(file), line, column) ==
      Quoted(projectRoot) + " " + Quoted(file) + ":" + DecimalString(line as int)
  {
  }

  /** A line and a column: `"file":line:column`. */
  lemma LineAndColumn(projectRoot: string, file: string, line: int32, column: int32)
    requires |file| > 0 && line >= 0 && column >= 0
    ensures BuildArgs(projectRoot, Some(file), line, column) ==
      Quoted(projectRoot) + " " + Quoted(file) + ":" + DecimalString(line as int) + ":" + DecimalString(column as int)
  {
  }

  /**
    A file at line 10, column 3: the position follows the closing quote of
    the file, it is not inside it.
   */
  lemma FileLineColumnExample()
    ensures BuildArgs("/proj", Some("/src/Foo.cs"), 10, 3) == "\"/proj\" \"/src/Foo.cs\":10:3"
  {
    assert DecimalString(1) == "1";
    assert DecimalString(10) == DecimalString(1) + "0" == "10";
    assert DecimalString(3) == "3";
    var suffix := PositionSuffix(10, 3);
    assert suffix == ":10:3";
    assert Quoted("/src/Foo.cs") == "\"/src/Foo.cs\"";
    assert RootPrefix("/proj") == "\"/proj\" ";
  }
}
