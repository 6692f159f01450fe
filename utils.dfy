/**
 * Data-processing helpers: the mass conversion factors with their lookup by
 * unit name, and the path of a data file under the working directory.
 */
module Utils {
  import opened Wrappers

  // ---------------------------------------------------------------------
  // Conversion factors
  // ---------------------------------------------------------------------

  /** The members of the `ConversionFactor` enum. */
  datatype ConversionFactor = PoundsToKilograms | GramsToKilograms

  /** Each member's value, as an exact real: 0.453592 and 10^-3. */
  function Value(c: ConversionFactor): real
  {
    match c
    case PoundsToKilograms => 0.453592
    case GramsToKilograms => 1.0 / 1000.0
  }

  /** The two members have distinct, positive values: a pound is heavier than a gram. */
  lemma FactorsDistinct()
    ensures Value(PoundsToKilograms) != Value(GramsToKilograms)
    ensures 0.0 < Value(GramsToKilograms) < Value(PoundsToKilograms) < 1.0
    ensures forall c, d :: Value(c) == Value(d) ==> c == d
  {
  }

  predicate IsAsciiUpper(ch: char)
  {
    'A' <= ch <= 'Z'
  }

  /** `str.lower()` on ASCII letters; other characters are kept. */
  function LowerChar(ch: char): (r: char)
    ensures !IsAsciiUpper(r)
    ensures IsAsciiUpper(ch) ==> r as int == ch as int + 32
    ensures !IsAsciiUpper(ch) ==> r == ch
  {
    if IsAsciiUpper(ch) then (ch as int + 32) as char else ch
  }

  function Lower(s: string): (r: string)
    ensures |r| == |s|
    ensures forall i :: 0 <= i < |s| ==> r[i] == LowerChar(s[i])
    ensures forall i :: 0 <= i < |r| ==> !IsAsciiUpper(r[i])
  {
    seq(|s|, i requires 0 <= i < |s| => LowerChar(s[i]))
  }

  /** Lower-casing twice is lower-casing once. */
  lemma LowerIdempotent(s: string)
    ensures Lower(Lower(s)) == Lower(s)
  {
  }

  /**
   * `ConversionFactor.from_string` as written: the argument is lower-cased,
   * then compared with "Pounds" and "Grams"; anything else raises
   * ValueError("Unknown unit: <lower-cased unit>").
   */
  function FromString(unit: string): Result<ConversionFactor, string>
  {
    var u := Lower(unit);
    if u == "Pounds" then Success(PoundsToKilograms)
    else if u == "Grams" then Success(GramsToKilograms)
    else Failure("Unknown unit: " + u)
  }

  /** A lower-cased string never equals a word that starts with a capital letter. */
  lemma LowerIsNotCapitalised(s: string, word: string)
    requires |word| > 0 && IsAsciiUpper(word[0])
    ensures Lower(s) != word
  {
  }

  /** Every input is rejected, "Pounds" and "Grams" included, with the lower-cased unit in the message. */
  lemma FromStringAlwaysFails(unit: string)
    ensures FromString(unit) == Failure("Unknown unit: " + Lower(unit))
  {
    LowerIsNotCapitalised(unit, "Pounds");
    LowerIsNotCapitalised(unit, "Grams");
  }

  /** The documented spellings are rejected too. */
  lemma FromStringRejectsDocumentedUnits()
    ensures FromString("Pounds") == Failure("Unknown unit: pounds")
    ensures FromString("Grams") == Failure("Unknown unit: grams")
  {
    FromStringAlwaysFails("Pounds");
    FromStringAlwaysFails("Grams");
    LowerPounds();
    LowerGrams();
    assert "Unknown unit: " + "pounds" == "Unknown unit: pounds";
    assert "Unknown unit: " + "grams" == "Unknown unit: grams";
  }

  lemma LowerPounds()
    ensures Lower("Pounds") == "pounds" && Lower("POUNDS") == "pounds"
  {
    var a, b := Lower("Pounds"), Lower("POUNDS");
    assert a[0] == 'p' && a[1] == 'o' && a[2] == 'u' && a[3] == 'n' && a[4] == 'd' && a[5] == 's';
    assert b[0] == 'p' && b[1] == 'o' && b[2] == 'u' && b[3] == 'n' && b[4] == 'd' && b[5] == 's';
  }

  lemma LowerGrams()
    ensures Lower("Grams") == "grams"
  {
    var a := Lower("Grams");
    assert a[0] == 'g' && a[1] == 'r' && a[2] == 'a' && a[3] == 'm' && a[4] == 's';
  }

  /** `from_string` as its documentation describes it: the comparison is with the lower-cased names. */
  function FromStringIntended(unit: string): (r: Result<ConversionFactor, string>)
    ensures r == Success(PoundsToKilograms) <==> Lower(unit) == "pounds"
    ensures r == Success(GramsToKilograms) <==> Lower(unit) == "grams"
    ensures r.Failure? <==> Lower(unit) != "pounds" && Lower(unit) != "grams"
    ensures r.Failure? ==> r.error == "Unknown unit: " + Lower(unit)
  {
    var u := Lower(unit);
    if u == "pounds" then Success(PoundsToKilograms)
    else if u == "grams" then Success(GramsToKilograms)
    else Failure("Unknown unit: " + u)
  }

  /** The corrected lookup accepts the names in any letter case. */
  lemma FromStringIntendedAcceptsUnits()
    ensures FromStringIntended("Pounds") == Success(PoundsToKilograms)
    ensures FromStringIntended("POUNDS") == Success(PoundsToKilograms)
    ensures FromStringIntended("Grams") == Success(GramsToKilograms)
    ensures FromStringIntended("Ounces").Failure?
  {
    LowerPounds();
    LowerGrams();
    assert Lower("Ounces")[0] == 'o';
  }

  // ---------------------------------------------------------------------
  // Data file paths
  // ---------------------------------------------------------------------

  /** `posixpath.join(path, b)`: an absolute `b` replaces the path; otherwise a '/' separates them unless already there. */
  function JoinTwo(path: string, b: string): string
  {
    if |b| > 0 && b[0] == '/' then b
    else if path == [] || path[|path| - 1] == '/' then path + b
    else path + "/" + b
  }

  /** `os.path.join(a, *parts)`: the parts joined onto `a` from left to right. */
  function Join(a: string, parts: seq<string>): string
    decreases |parts|
  {
    if parts == [] then a else Join(JoinTwo(a, parts[0]), parts[1..])
  }

  lemma JoinThree(a: string, x: string, y: string, z: string)
    ensures Join(a, [x, y, z]) == JoinTwo(JoinTwo(JoinTwo(a, x), y), z)
  {
    assert [x, y, z][1..] == [y, z];
    assert [y, z][1..] == [z];
    assert [z][1..] == [];
    assert Join(a, [x, y, z]) == Join(JoinTwo(a, x), [y, z]);
    assert Join(JoinTwo(a, x), [y, z]) == Join(JoinTwo(JoinTwo(a, x), y), [z]);
    assert Join(JoinTwo(JoinTwo(a, x), y), [z]) == Join(JoinTwo(JoinTwo(JoinTwo(a, x), y), z), []);
  }

  /** A relative component is appended whole, after a separator (or nothing, for an empty path). */
  lemma JoinTwoAppends(path: string, b: string)
    requires |b| == 0 || b[0] != '/'
    ensures exists sep :: (sep == "" || sep == "/") && JoinTwo(path, b) == path + sep + b &&
                          (path + sep == [] || (path + sep)[|path + sep| - 1] == '/')
  {
    if path == [] || path[|path| - 1] == '/' {
      assert JoinTwo(path, b) == path + "" + b;
    } else {
      assert (path + "/")[|path + "/"| - 1] == '/';
    }
  }

  /** The directory form of a path: itself when it already ends with '/', else with '/' appended. */
  function AsDirectory(path: string): (r: string)
    ensures |r| > 0 && r[|r| - 1] == '/'
  {
    if |path| > 0 && path[|path| - 1] == '/' then path else path + "/"
  }

  /**
   * `TriDataHelper.generate_data_file_path`: the working directory (fixed
   * when the module is imported, a parameter here), then "data", the
   * subfolder (by default "raw") and the file name.
   */
  function GenerateDataFilePath(currentDirectory: string, fileName: string, subfolder: string := "raw"): string
  {
    Join(currentDirectory, ["data", subfolder, fileName])
  }

  /** A component that does not start with '/'. */
  predicate Relative(s: string)
  {
    |s| == 0 || s[0] != '/'
  }

  /**
   * For plain components the path is laid out as documented: the working
   * directory, "data", the subfolder and the file name, one '/' between
   * each, the file name last.
   */
  lemma DataFilePathLayout(currentDirectory: string, fileName: string, subfolder: string)
    requires |currentDirectory| > 0
    requires |subfolder| > 0 && Relative(subfolder) && subfolder[|subfolder| - 1] != '/'
    requires Relative(fileName)
    ensures GenerateDataFilePath(currentDirectory, fileName, subfolder) ==
            AsDirectory(currentDirectory) + "data/" + subfolder + "/" + fileName
  {
    var d := AsDirectory(currentDirectory);
    var p1 := JoinTwo(currentDirectory, "data");
    assert "data"[0] == 'd';
    assert p1 == d + "data";
    assert p1[|p1| - 1] == 'a';
    var p2 := JoinTwo(p1, subfolder);
    assert p2 == p1 + "/" + subfolder;
    assert p2[|p2| - 1] == subfolder[|subfolder| - 1];
    var p3 := JoinTwo(p2, fileName);
    assert p3 == p2 + "/" + fileName;
    assert p3 == d + "data/" + subfolder + "/" + fileName;
    JoinThree(currentDirectory, "data", subfolder, fileName);
  }

  /** With the default subfolder, a plain file name lands in `<cwd>/data/raw/`. */
  lemma DefaultSubfolderIsRaw(currentDirectory: string, fileName: string)
    requires |currentDirectory| > 0 && Relative(fileName)
    ensures GenerateDataFilePath(currentDirectory, fileName) ==
            AsDirectory(currentDirectory) + "data/raw/" + fileName
  {
    DataFilePathLayout(currentDirectory, fileName, "raw");
  }

  /** The file name is always the last component: the path ends with it, right after a '/' or at an absolute file name. */
  lemma FileNameIsLast(currentDirectory: string, fileName: string, subfolder: string)
    ensures var p := GenerateDataFilePath(currentDirectory, fileName, subfolder);
            exists prefix :: p == prefix + fileName && (prefix == [] || prefix[|prefix| - 1] == '/')
  {
    JoinThree(currentDirectory, "data", subfolder, fileName);
    var q := JoinTwo(JoinTwo(currentDirectory, "data"), subfolder);
    if Relative(fileName) {
      JoinTwoAppends(q, fileName);
      var sep :| (sep == "" || sep == "/") && JoinTwo(q, fileName) == q + sep + fileName &&
                 (q + sep == [] || (q + sep)[|q + sep| - 1] == '/');
      assert JoinTwo(q, fileName) == (q + sep) + fileName;
    } else {
      assert JoinTwo(q, fileName) == [] + fileName;
    }
  }
}
