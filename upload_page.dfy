// pages/admin/AdminDataUploadPage.tsx: the checks `handleFileUpload` makes
// before it sends a file (:38-52). The upload itself is not modelled.

module UploadPage {
  import opened Common

  const ValidTypes: set<string> := {"text/csv", "application/vnd.ms-excel",
    "application/vnd.openxmlformats-officedocument.spreadsheetml.sheet"}
  const ValidExtensions: set<string> := {"csv", "xlsx", "xls"}
  const MaxSize: int := 10 * 1024 * 1024

  /** Splitting puts back together around the last separator. */
  lemma {:induction false} JoinLast(parts: seq<string>, sep: char)
    requires |parts| >= 2
    ensures Join(parts, sep) == Join(parts[..|parts| - 1], sep) + [sep] + parts[|parts| - 1]
    decreases |parts|
  {
    if |parts| > 2 {
      JoinLast(parts[1..], sep);
      assert parts[1..][..|parts[1..]| - 1] == parts[..|parts| - 1][1..];
    }
  }

  /** A name with a dot: the last piece of its split on '.' is what
      follows its last dot, at index `k`. */
  lemma LastDot(name: string) returns (k: nat)
    requires '.' in name
    ensures k < |name| && name[k] == '.' && '.' !in name[k + 1..]
    ensures var pieces := Split(name, '.'); pieces[|pieces| - 1] == name[k + 1..]
  {
    var pieces := Split(name, '.');
    SplitJoin(name, '.');
    SplitCount(name, '.');
    assert |pieces| >= 2;
    SplitPiecesHaveNoSep(name, '.');
    var last := pieces[|pieces| - 1];
    assert '.' !in last;
    JoinLast(pieces, '.');
    var front := Join(pieces[..|pieces| - 1], '.');
    assert name == front + ['.'] + last;
    k := |front|;
    assert name[k + 1..] == last;
  }

  /** The last piece is the whole name when it has no dot, and what follows
      its last dot otherwise. */
  lemma LastPiece(name: string)
    ensures var pieces := Split(name, '.');
      ('.' !in name ==> pieces[|pieces| - 1] == name) &&
      ('.' in name ==> exists k :: 0 <= k < |name| && name[k] == '.' && '.' !in name[k + 1..] &&
                                   pieces[|pieces| - 1] == name[k + 1..])
  {
    if '.' in name {
      var k := LastDot(name);
    } else {
      SplitNoSep(name, '.');
    }
  }

  /** `file.name.split('.').pop()?.toLowerCase()` (:41). */
  function Extension(name: string): (r: string)
    ensures '.' !in name ==> r == Lower(name)
    ensures '.' in name ==> exists k :: 0 <= k < |name| && name[k] == '.' && '.' !in name[k + 1..] && r == Lower(name[k + 1..])
  {
    var pieces := Split(name, '.');
    LastPiece(name);
    Lower(pieces[|pieces| - 1])
  }

  datatype Outcome = BadType | TooLarge | Send

  predicate TypeOk(name: string, mime: string) {
    mime in ValidTypes || Extension(name) in ValidExtensions
  }

  /** The result of the checks: the type check first, then the size. */
  function CheckFile(name: string, mime: string, size: int): (r: Outcome)
    ensures r == BadType <==> !TypeOk(name, mime)
    ensures r == TooLarge <==> TypeOk(name, mime) && size > MaxSize
    ensures r == Send <==> TypeOk(name, mime) && size <= MaxSize
  {
    if !TypeOk(name, mime) then BadType
    else if size > MaxSize then TooLarge
    else Send
  }

  /** A file of exactly 10 MiB is sent; one byte more is not. */
  lemma SizeBoundary(name: string, mime: string)
    requires TypeOk(name, mime)
    ensures CheckFile(name, mime, 10485760) == Send
    ensures CheckFile(name, mime, 10485761) == TooLarge
  {
  }

  /** The extension is what follows the last dot, lower-cased. */
  lemma ExtensionAfterLastDot(base: string, ext: string)
    requires '.' !in ext
    ensures Extension(base + "." + ext) == Lower(ext)
  {
    SplitLast(base, '.', ext);
  }

  /** The extension alone admits a file whatever type the browser reports:
      "DATA.CSV" with an empty type is sent. */
  lemma ExtensionAlone()
    ensures CheckFile("DATA.CSV", "", 100) == Send
  {
    assert "DATA.CSV" == "DATA" + "." + "CSV";
    ExtensionAfterLastDot("DATA", "CSV");
    LowerCsv();
    assert Extension("DATA.CSV") in ValidExtensions;
  }

  lemma LowerCsv()
    ensures Lower("CSV") == "csv"
  {
    var l := Lower("CSV");
    assert l[0] == LowerChar('C') == 'c';
    assert l[1] == LowerChar('S') == 's';
    assert l[2] == LowerChar('V') == 'v';
  }
}
