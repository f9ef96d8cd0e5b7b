/** The upload filter of the web front end: a spreadsheet is accepted only
    when its name carries an allowed extension (VillOpt/app.py, allowed_file). */
module Upload {

  /** The extensions an upload may carry, already lower-cased. */
  const AllowedExtensions: set<string> := {"xlsx"}

  /** Python's `s.rsplit(sep, 1)`: the text before and after the LAST `sep`,
      or `[s]` alone when `sep` does not occur. */
  function RSplitOnce(s: string, sep: char): (parts: seq<string>)
    ensures sep !in s ==> parts == [s]
    ensures sep in s ==> |parts| == 2 && s == parts[0] + [sep] + parts[1] && sep !in parts[1]
    decreases |s|
  {
    if |s| == 0 then [s]
    else
      var init, last := s[..|s| - 1], s[|s| - 1];
      assert s == init + [last];
      if last == sep then [init, []]
      else
        var p := RSplitOnce(init, sep);
        if |p| == 1 then [s] else [p[0], p[1] + [last]]
  }

  /** Python's `str.lower()` on one character, for the ASCII letters. */
  function LowerChar(c: char): char {
    if 'A' <= c <= 'Z' then (c as int + 32) as char else c
  }

  /** Python's `str.lower()`, character by character: no upper-case ASCII
      letter is left, each one becomes its lower-case letter (32 code points
      on), and every other character is kept. */
  function ToLower(s: string): (r: string)
    ensures |r| == |s|
    ensures forall i :: 0 <= i < |r| ==> !('A' <= r[i] <= 'Z')
    ensures forall i :: 0 <= i < |s| && 'A' <= s[i] <= 'Z' ==> r[i] as int == s[i] as int + 32
    ensures forall i :: 0 <= i < |s| && !('A' <= s[i] <= 'Z') ==> r[i] == s[i]
  {
    seq(|s|, i requires 0 <= i < |s| => LowerChar(s[i]))
  }

  /** `allowed_file`: the name contains a dot and the text after its last dot,
      lower-cased, is an allowed extension. */
  predicate AllowedFile(filename: string) {
    '.' in filename && ToLower(RSplitOnce(filename, '.')[1]) in AllowedExtensions
  }

  /** Where the last separator of `a + [sep] + b` stands, when `b` has none. */
  lemma LastSeparatorAt(s: string, sep: char, a: string, b: string)
    requires s == a + [sep] + b && sep !in b
    ensures |b| < |s| && s[|s| - 1 - |b|] == sep && b == s[|s| - |b|..]
    ensures forall j :: |s| - |b| <= j < |s| ==> s[j] != sep
  {
    assert forall j :: |s| - |b| <= j < |s| ==> s[j] == b[j - (|s| - |b|)];
  }

  /** Whatever precedes the last separator, the text after it is determined. */
  lemma LastPartUnique(s: string, sep: char, a: string, b: string, a': string, b': string)
    requires s == a + [sep] + b && sep !in b
    requires s == a' + [sep] + b' && sep !in b'
    ensures b == b'
  {
    LastSeparatorAt(s, sep, a, b);
    LastSeparatorAt(s, sep, a', b');
  }

  /** Only a four-letter text without a dot lower-cases to "xlsx". */
  lemma LowerIsXlsx(s: string)
    requires ToLower(s) == "xlsx"
    ensures |s| == 4 && '.' !in s
  {
  }

  /** The rule in closed form: a name is accepted exactly when it ends in a dot
      followed by four characters that lower-case to "xlsx". */
  lemma AllowedFileIff(filename: string)
    ensures AllowedFile(filename) <==>
      |filename| >= 5 && filename[|filename| - 5] == '.' && ToLower(filename[|filename| - 4..]) == "xlsx"
  {
    var n := |filename|;
    if AllowedFile(filename) {
      var parts := RSplitOnce(filename, '.');
      LowerIsXlsx(parts[1]);
      assert filename[n - 5] == (parts[0] + ['.'] + parts[1])[n - 5];
      assert filename[n - 4..] == parts[1];
    }
    if n >= 5 && filename[n - 5] == '.' && ToLower(filename[n - 4..]) == "xlsx" {
      var a, b := filename[..n - 5], filename[n - 4..];
      LowerIsXlsx(b);
      assert filename == a + ['.'] + b;
      assert '.' in filename;
      var parts := RSplitOnce(filename, '.');
      LastPartUnique(filename, '.', a, b, parts[0], parts[1]);
    }
  }

  /** Lower-casing is idempotent. */
  lemma ToLowerIdempotent(s: string)
    ensures ToLower(ToLower(s)) == ToLower(s)
  {
  }

  /** The check ignores case: a name is accepted exactly when its lower-cased
      form is. */
  lemma AllowedFileIgnoresCase(filename: string)
    ensures AllowedFile(filename) <==> AllowedFile(ToLower(filename))
  {
    var low := ToLower(filename);
    var n := |filename|;
    AllowedFileIff(filename);
    AllowedFileIff(low);
    if n >= 5 {
      assert ToLower(low[n - 4..]) == ToLower(ToLower(filename[n - 4..])) by {
        assert low[n - 4..] == ToLower(filename[n - 4..]);
      }
      ToLowerIdempotent(filename[n - 4..]);
      assert low[n - 5] == '.' <==> filename[n - 5] == '.';
    }
  }

  /** Only the end of the name matters: whatever directory-like or other text
      precedes an accepted name, the result is accepted. */
  lemma AllowedFilePrefix(prefix: string, filename: string)
    requires AllowedFile(filename)
    ensures AllowedFile(prefix + filename)
  {
    AllowedFileIff(filename);
    var s := prefix + filename;
    AllowedFileIff(s);
    assert s[|s| - 4..] == filename[|filename| - 4..];
    assert s[|s| - 5] == filename[|filename| - 5];
  }

  /** The extension is compared without regard to case. */
  lemma AcceptsUpperCaseExtension()
    ensures AllowedFile("a.XLSX")
  {
    AllowedFileIff("a.XLSX");
    assert "a.XLSX"[2..] == "XLSX";
    assert ToLower("XLSX") == "xlsx";
  }

  /** A name made of a dot and the extension alone is accepted. */
  lemma AcceptsDotExtension()
    ensures AllowedFile(".xlsx")
  {
    AllowedFileIff(".xlsx");
    assert ".xlsx"[1..] == "xlsx";
    assert ToLower("xlsx") == "xlsx";
  }

  /** Without a dot the extension text itself is not enough. */
  lemma RejectsNameWithoutDot()
    ensures !AllowedFile("xlsx")
    ensures !AllowedFile("")
  {
  }

  /** Only the text after the LAST dot counts. */
  lemma RejectsLaterExtension()
    ensures !AllowedFile("a.xlsx.csv")
  {
    AllowedFileIff("a.xlsx.csv");
  }

  /** The older spreadsheet extension is not in the allowed set. */
  lemma RejectsXls()
    ensures !AllowedFile("orders.xls")
  {
    AllowedFileIff("orders.xls");
  }
}
