/**
 The entry point (leads_uploader/src/main.py `main`, and its copy `send_leads`
 in leads_uploader/src/config.py): read the file path and company name from
 the command line, derive the index name, and either stop, report that the
 index exists, or create the index and upload the leads. Printing is reduced
 to the final `END DATA` line; the index-exists check is an oracle and the
 CSV header is supplied by the caller.
 */
module Entry {
  import opened Common
  import opened Frames
  import opened Mapping

  /** `sep` occurs `Count` times in `s`. */
  function Count(s: string, sep: char): nat
  {
    if |s| == 0 then 0 else (if s[0] == sep then 1 else 0) + Count(s[1..], sep)
  }

  /** The pieces in order with one separator between neighbours. */
  function Join(parts: seq<string>, sep: char): string
    requires |parts| >= 1
  {
    if |parts| == 1 then parts[0] else parts[0] + [sep] + Join(parts[1..], sep)
  }

  /** `parts` are the pieces of `s` between occurrences of `sep`. */
  predicate SplitsInto(s: string, sep: char, parts: seq<string>)
  {
    && |parts| == Count(s, sep) + 1
    && (forall i | 0 <= i < |parts| :: sep !in parts[i])
    && Join(parts, sep) == s
    && (|parts| == 1 <==> sep !in s)
  }

  /** A leading separator closes an empty first piece. */
  lemma SplitsAtSeparator(s: string, sep: char, rest: seq<string>)
    requires |s| > 0 && s[0] == sep && SplitsInto(s[1..], sep, rest)
    ensures SplitsInto(s, sep, [""] + rest)
  {
    assert s == [s[0]] + s[1..];
    assert ([""] + rest)[1..] == rest;
  }

  /** Any other leading character joins the first piece. */
  lemma SplitsAtLetter(s: string, sep: char, rest: seq<string>)
    requires |s| > 0 && s[0] != sep && SplitsInto(s[1..], sep, rest)
    ensures SplitsInto(s, sep, [[s[0]] + rest[0]] + rest[1..])
  {
    var parts := [[s[0]] + rest[0]] + rest[1..];
    assert |parts| == Count(s, sep) + 1;
    assert forall i | 0 <= i < |parts| :: sep !in parts[i] by {
      assert sep !in rest[0] by { assert rest[0] in rest; }
      forall i | 0 < i < |parts| ensures parts[i] == rest[i] { }
    }
    assert Join(parts, sep) == s by {
      JoinConsLetter(s[0], rest, sep);
      assert s == [s[0]] + s[1..];
    }
    assert sep in s <==> sep in s[1..] by {
      assert s == [s[0]] + s[1..];
    }
  }

  /** Putting a character in front of the first piece puts it in front of the join. */
  lemma JoinConsLetter(c: char, rest: seq<string>, sep: char)
    requires |rest| >= 1
    ensures Join([[c] + rest[0]] + rest[1..], sep) == [c] + Join(rest, sep)
  {
    var parts := [[c] + rest[0]] + rest[1..];
    JoinHead(rest, sep);
    JoinHead(parts, sep);
    assert parts[1..] == rest[1..];
    assert JoinRest(parts, sep) == JoinRest(rest, sep);
  }

  /**
   Python's `s.split(sep)` with an explicit separator: the pieces between
   separators, empty ones included.
   */
  function Split(s: string, sep: char): (parts: seq<string>)
    ensures |parts| == Count(s, sep) + 1
    ensures forall i | 0 <= i < |parts| :: sep !in parts[i]
    ensures Join(parts, sep) == s
    ensures |parts| == 1 <==> sep !in s
    decreases |s|
  {
    if |s| == 0 then [""]
    else
      var rest := Split(s[1..], sep);
      if s[0] == sep then
        SplitsAtSeparator(s, sep, rest);
        [""] + rest
      else
        SplitsAtLetter(s, sep, rest);
        [[s[0]] + rest[0]] + rest[1..]
  }

  /** One step of the split: a leading separator closes an empty piece, any other character opens the first piece. */
  lemma SplitStep(s: string, sep: char)
    requires |s| > 0
    ensures s[0] == sep ==> Split(s, sep) == [""] + Split(s[1..], sep)
    ensures s[0] != sep ==> Split(s, sep) == [[s[0]] + Split(s[1..], sep)[0]] + Split(s[1..], sep)[1..]
  {
  }

  /** Joining after the first piece: nothing, or the separator and the other pieces joined. */
  function JoinRest(parts: seq<string>, sep: char): string
    requires |parts| >= 1
  {
    if |parts| == 1 then "" else [sep] + Join(parts[1..], sep)
  }

  lemma JoinHead(parts: seq<string>, sep: char)
    requires |parts| >= 1
    ensures Join(parts, sep) == parts[0] + JoinRest(parts, sep)
  {
  }

  /** Splitting undoes joining pieces that hold no separator. */
  lemma {:induction false} SplitJoin(parts: seq<string>, sep: char)
    requires |parts| >= 1 && forall i | 0 <= i < |parts| :: sep !in parts[i]
    ensures Split(Join(parts, sep), sep) == parts
    decreases |parts|, |parts[0]|, 1
  {
    if |parts[0]| > 0 {
      SplitJoinLetter(parts, sep);
    } else if |parts| > 1 {
      SplitJoinEmpty(parts, sep);
    }
  }

  /** The first piece is not empty: its first character starts the split's first piece. */
  lemma {:induction false} SplitJoinLetter(parts: seq<string>, sep: char)
    requires |parts| >= 1 && forall i | 0 <= i < |parts| :: sep !in parts[i]
    requires |parts[0]| > 0
    ensures Split(Join(parts, sep), sep) == parts
    decreases |parts|, |parts[0]|, 0
  {
    var s := Join(parts, sep);
    var tail := [parts[0][1..]] + parts[1..];
    JoinDropLetter(parts, sep);
    assert tail[1..] == parts[1..];
    SplitJoin(tail, sep);
    assert s[0] != sep by {
      assert parts[0][0] in parts[0];
    }
    SplitStep(s, sep);
    assert [parts[0][0]] + parts[0][1..] == parts[0];
  }

  /** Dropping the first character of a join drops it from the first piece. */
  lemma JoinDropLetter(parts: seq<string>, sep: char)
    requires |parts| >= 1 && |parts[0]| > 0
    ensures var s := Join(parts, sep);
      s[0] == parts[0][0] && s[1..] == Join([parts[0][1..]] + parts[1..], sep)
  {
    var tail := [parts[0][1..]] + parts[1..];
    var r := JoinRest(parts, sep);
    assert JoinRest(tail, sep) == r by {
      assert tail[1..] == parts[1..];
    }
    JoinHead(parts, sep);
    JoinHead(tail, sep);
    assert (parts[0] + r)[1..] == parts[0][1..] + r;
  }

  /** The first piece is empty: the joined string starts with the separator. */
  lemma {:induction false} SplitJoinEmpty(parts: seq<string>, sep: char)
    requires |parts| >= 2 && forall i | 0 <= i < |parts| :: sep !in parts[i]
    requires |parts[0]| == 0
    ensures Split(Join(parts, sep), sep) == parts
    decreases |parts|, |parts[0]|, 0
  {
    var s := Join(parts, sep);
    JoinHead(parts, sep);
    SplitJoin(parts[1..], sep);
    assert s[1..] == Join(parts[1..], sep);
    SplitStep(s, sep);
    assert parts == [""] + parts[1..];
  }

  /**
   The index-name stem: the second `/`-separated segment of the path, cut at
   its first `.`. Without a `/` the path has a single segment and asking for
   the second raises `IndexError`.
   */
  function IndexStem(filename: string): (r: Result<string, Raised>)
    ensures r.Ok? <==> '/' in filename
    ensures r.Err? ==> r.error == IndexError
    ensures r.Ok? ==> '/' !in r.value && '.' !in r.value
  {
    var segments := Split(filename, '/');
    if |segments| < 2 then Err(IndexError)
    else
      assert segments[1] in segments;
      var stem := Split(segments[1], '.')[0];
      Ok(stem)
  }

  lemma JoinPair(a: string, b: string, sep: char)
    ensures Join([a, b], sep) == a + [sep] + b
  {
    assert [a, b][1..] == [b];
  }

  lemma JoinTriple(a: string, b: string, c: string, sep: char)
    ensures Join([a, b, c], sep) == a + [sep] + b + [sep] + c
  {
    assert [a, b, c][1..] == [b, c];
    JoinPair(b, c, sep);
  }

  /** What follows the first piece of a split: nothing, or the separator and the other pieces. */
  function SplitRest(s: string, sep: char): string
  {
    var parts := Split(s, sep);
    if |parts| > 1 then [sep] + Join(parts[1..], sep) else ""
  }

  /** A string is its first piece followed by the rest of the split. */
  lemma SplitHead(s: string, sep: char)
    ensures s == Split(s, sep)[0] + SplitRest(s, sep)
    ensures SplitRest(s, sep) == "" || SplitRest(s, sep)[0] == sep
  {
  }

  /**
   `filename` is `a/stem` followed by `b`, where `a` holds no `/` and `b` is
   empty or starts with `.` or `/`.
   */
  predicate StemBetween(filename: string, a: string, stem: string, b: string)
  {
    && filename == a + ['/'] + (stem + b)
    && '/' !in a
    && (b == "" || b[0] == '.' || b[0] == '/')
  }

  /** The path is its first segment, `/`, its second segment and then nothing or `/`. */
  lemma SecondSegment(filename: string)
    requires '/' in filename
    ensures var segments := Split(filename, '/');
      && filename == segments[0] + ['/'] + (segments[1] + SplitRest(SplitRest(filename, '/')[1..], '/'))
      && (SplitRest(SplitRest(filename, '/')[1..], '/') == "" || SplitRest(SplitRest(filename, '/')[1..], '/')[0] == '/')
  {
    var segments := Split(filename, '/');
    SplitHead(filename, '/');
    var tail := SplitRest(filename, '/')[1..];
    assert tail == Join(segments[1..], '/');
    SplitJoin(segments[1..], '/');
    SplitHead(tail, '/');
  }

  /** What follows the stem in the path: the rest of its segment, then the remaining segments. */
  function AfterStem(filename: string): string
    requires '/' in filename
  {
    var segments := Split(filename, '/');
    SplitRest(segments[1], '.') + SplitRest(SplitRest(filename, '/')[1..], '/')
  }

  lemma StemBetweenParts(filename: string)
    requires '/' in filename
    ensures StemBetween(filename, Split(filename, '/')[0], IndexStem(filename).value, AfterStem(filename))
  {
    var segments := Split(filename, '/');
    var stem := IndexStem(filename).value;
    var after := SplitRest(segments[1], '.');
    var rest := SplitRest(SplitRest(filename, '/')[1..], '/');
    SplitHead(segments[1], '.');
    SecondSegment(filename);
    assert segments[0] in segments;
    Regroup(filename, segments[0], segments[1] + rest, stem, after, rest);
    var b := after + rest;
    assert b == "" || b[0] == '.' || b[0] == '/' by {
      if after != "" { assert b[0] == after[0]; }
    }
  }

  /**
   Where the stem sits in the path: right after the first `/`, running up to
   the next `.` or `/` or the end of the path.
   */
  lemma IndexStemLocated(filename: string)
    requires '/' in filename
    ensures exists a, b :: StemBetween(filename, a, IndexStem(filename).value, b)
  {
    StemBetweenParts(filename);
  }

  lemma Regroup(f: string, a: string, m: string, stem: string, after: string, rest: string)
    requires f == a + ['/'] + m && m == (stem + after) + rest
    ensures f == a + ['/'] + (stem + (after + rest))
  {
  }

  /**
   An upper-case letter of ASCII or of the Latin-1 supplement (the accented
   capitals `À`..`Þ` except `×`): the letters whose lower-case form is the
   code point 0x20 higher.
   */
  predicate IsUpper(c: char)
  {
    'A' <= c <= 'Z' || (0xC0 <= c as int <= 0xDE && c as int != 0xD7)
  }

  /** `str.lower` on one character of ASCII or Latin-1. */
  function LowerChar(c: char): (l: char)
    ensures !IsUpper(l)
    ensures !IsUpper(c) ==> l == c
    ensures IsUpper(c) ==> l as int == c as int + 0x20
  {
    if IsUpper(c) then (c as int + 0x20) as char else c
  }

  /** Lower-casing: upper-case letters move 0x20 up, every other character stays. */
  function Lower(s: string): (l: string)
    ensures |l| == |s|
    ensures forall i | 0 <= i < |s| :: !IsUpper(s[i]) ==> l[i] == s[i]
    ensures forall i | 0 <= i < |s| :: IsUpper(s[i]) ==> l[i] as int == s[i] as int + 0x20
    ensures forall i | 0 <= i < |l| :: !IsUpper(l[i])
  {
    seq(|s|, i requires 0 <= i < |s| => LowerChar(s[i]))
  }

  /** Lower-casing changes a string iff it holds an upper-case letter, and a second pass changes nothing. */
  lemma LowerFixed(s: string)
    ensures Lower(s) == s <==> forall i | 0 <= i < |s| :: !IsUpper(s[i])
    ensures Lower(Lower(s)) == Lower(s)
  {
    if Lower(s) == s {
      forall i | 0 <= i < |s| ensures !IsUpper(s[i]) {
        assert s[i] == Lower(s)[i];
      }
    }
  }

  /** Every space becomes a hyphen; every other character stays. */
  function ReplaceSpaces(s: string): (r: string)
    ensures |r| == |s|
    ensures forall i | 0 <= i < |s| :: s[i] == ' ' ==> r[i] == '-'
    ensures forall i | 0 <= i < |s| :: s[i] != ' ' ==> r[i] == s[i]
    ensures ' ' !in r
  {
    seq(|s|, i requires 0 <= i < |s| => if s[i] == ' ' then '-' else s[i])
  }

  /** Replacing spaces changes a name iff it holds a space; hyphens already there are kept. */
  lemma ReplaceSpacesFixed(s: string)
    ensures ReplaceSpaces(s) == s <==> ' ' !in s
    ensures forall i | 0 <= i < |s| :: s[i] == '-' ==> ReplaceSpaces(s)[i] == '-'
  {
    if ' ' in s {
      var i :| 0 <= i < |s| && s[i] == ' ';
      assert ReplaceSpaces(s)[i] != s[i];
    }
  }

  /**
   The index name: the company name with its spaces replaced by hyphens, a
   hyphen, and the stem, all lower-cased.
   */
  function IndexName(filename: string, company: string): (r: Result<string, Raised>)
    ensures r.Ok? <==> '/' in filename
    ensures r.Err? ==> r.error == IndexError
    ensures r.Ok? ==> forall i | 0 <= i < |r.value| :: !IsUpper(r.value[i])
    ensures r.Ok? ==> Lower(r.value) == r.value
    ensures r.Ok? ==>
      && |r.value| == |company| + 1 + |IndexStem(filename).value|
      && r.value[..|company|] == Lower(ReplaceSpaces(company))
      && ' ' !in r.value[..|company|]
      && r.value[|company|] == '-'
      && r.value[|company| + 1..] == Lower(IndexStem(filename).value)
  {
    match IndexStem(filename)
    case Err(e) => Err(e)
    case Ok(stem) =>
      var name := Lower(ReplaceSpaces(company) + "-" + stem);
      assert name[..|company|] == Lower(ReplaceSpaces(company));
      assert name[|company| + 1..] == Lower(stem);
      LowerFixed(ReplaceSpaces(company) + "-" + stem);
      Ok(name)
  }

  /** The effects the entry point can have besides printing. */
  datatype Action =
    | CreateIndex(name: string, mapping: IndexMapping)
    | UploadLeads(index: string, filename: string, company: string)

  /** How a run ends: the final `END DATA` line and the effects in order, or an escaped exception. */
  datatype Run = Finished(actions: seq<Action>, endLine: string) | Crashed(error: Raised)

  const EndData: string := "END DATA: "
  const NoFileLine: string := "END DATA: Não foi passado nenhum arquivo."
  const IndexExistsLine: string := "END DATA: O indice ja existe."

  /** File name and company name: `argv[1]` and `argv[2]` when exactly three arguments were given. */
  function Arguments(argv: seq<string>, filename: string, company: string): (string, string)
  {
    if |argv| == 3 then (argv[1], argv[2]) else (filename, company)
  }

  /**
   The shared body of `main` and `send_leads`. The mapping is built before the
   name is derived, so a missing `cnpj` column is reported before a path
   without `/`. An existing index is never created again, and creation comes
   before the upload into the same index.
   */
  function Dispatch(filename: string, company: string, readColumns: string -> seq<Column>,
                    indexExists: string -> bool): (r: Run)
    ensures filename == "" || company == "" ==> r == Finished([], NoFileLine)
    ensures r.Finished? ==> forall a | a in r.actions && a.CreateIndex? :: !indexExists(a.name)
    ensures r.Finished? ==> |r.actions| == 0 || |r.actions| == 2
    ensures r.Finished? && |r.actions| == 2 ==>
      && r.actions[0].CreateIndex?
      && r.actions[1] == UploadLeads(r.actions[0].name, filename, company)
      && r.endLine == EndData + r.actions[0].name
    ensures r.Finished? && |r.actions| == 0 ==> r.endLine in {NoFileLine, IndexExistsLine}
    ensures filename != "" && company != "" ==>
      var columns := readColumns(filename);
      && (!HasColumn(columns, CnpjColumn) ==> r == Crashed(KeyError(CnpjColumn)))
      && (HasColumn(columns, CnpjColumn) && '/' !in filename ==> r == Crashed(IndexError))
      && (HasColumn(columns, CnpjColumn) && '/' in filename ==>
            var name := IndexName(filename, company).value;
            && (indexExists(name) ==> r == Finished([], IndexExistsLine))
            && (!indexExists(name) ==>
                  r == Finished([CreateIndex(name, CreateMapping(columns).value), UploadLeads(name, filename, company)],
                                EndData + name)))
  {
    if filename == "" || company == "" then Finished([], NoFileLine)
    else
      match CreateMapping(readColumns(filename))
      case Err(e) => Crashed(e)
      case Ok(mapping) =>
        match IndexName(filename, company)
        case Err(e) => Crashed(e)
        case Ok(name) =>
          if indexExists(name) then Finished([], IndexExistsLine)
          else Finished([CreateIndex(name, mapping), UploadLeads(name, filename, company)], EndData + name)
  }

  /** `main()`: both names start empty. */
  function Main(argv: seq<string>, readColumns: string -> seq<Column>, indexExists: string -> bool): Run
  {
    var (filename, company) := Arguments(argv, "", "");
    Dispatch(filename, company, readColumns, indexExists)
  }

  /** `send_leads(filename, company_name)`: the command line overrides the parameters. */
  function SendLeads(filename: string, company: string, argv: seq<string>,
                     readColumns: string -> seq<Column>, indexExists: string -> bool): Run
  {
    var (f, c) := Arguments(argv, filename, company);
    Dispatch(f, c, readColumns, indexExists)
  }

  /** The command line names a file and a company. */
  predicate ArgumentsGiven(argv: seq<string>)
  {
    |argv| == 3 && argv[1] != "" && argv[2] != ""
  }

  /** Without exactly two non-empty arguments, `main` only reports that no file was passed. */
  lemma MainWithoutArguments(argv: seq<string>, readColumns: string -> seq<Column>, indexExists: string -> bool)
    requires !ArgumentsGiven(argv)
    ensures Main(argv, readColumns, indexExists) == Finished([], NoFileLine)
  {
  }

  /** A CSV without `cnpj` or a path without `/` ends `main` with the exception. */
  lemma MainCrashes(argv: seq<string>, readColumns: string -> seq<Column>, indexExists: string -> bool)
    requires ArgumentsGiven(argv)
    ensures !HasColumn(readColumns(argv[1]), CnpjColumn) ==>
      Main(argv, readColumns, indexExists) == Crashed(KeyError(CnpjColumn))
    ensures HasColumn(readColumns(argv[1]), CnpjColumn) && '/' !in argv[1] ==>
      Main(argv, readColumns, indexExists) == Crashed(IndexError)
  {
  }

  /** An existing index: nothing is created or uploaded, and the last line says so. */
  lemma MainIndexExists(argv: seq<string>, readColumns: string -> seq<Column>, indexExists: string -> bool)
    requires ArgumentsGiven(argv) && HasColumn(readColumns(argv[1]), CnpjColumn) && '/' in argv[1]
    requires indexExists(IndexName(argv[1], argv[2]).value)
    ensures Main(argv, readColumns, indexExists) == Finished([], IndexExistsLine)
  {
  }

  /** A new index: it is created with the CSV's mapping, then the leads are uploaded into it. */
  lemma MainCreatesThenUploads(argv: seq<string>, readColumns: string -> seq<Column>, indexExists: string -> bool)
    requires ArgumentsGiven(argv) && HasColumn(readColumns(argv[1]), CnpjColumn) && '/' in argv[1]
    requires !indexExists(IndexName(argv[1], argv[2]).value)
    ensures var name := IndexName(argv[1], argv[2]).value;
      Main(argv, readColumns, indexExists) ==
        Finished([CreateIndex(name, CreateMapping(readColumns(argv[1])).value), UploadLeads(name, argv[1], argv[2])],
                 EndData + name)
  {
  }

  /**
   `send_leads` behaves as `main` when the command line has exactly three
   entries, and otherwise runs on its own parameters.
   */
  lemma SendLeadsOverridden(filename: string, company: string, argv: seq<string>,
                            readColumns: string -> seq<Column>, indexExists: string -> bool)
    ensures |argv| == 3 ==> SendLeads(filename, company, argv, readColumns, indexExists) == Main(argv, readColumns, indexExists)
    ensures |argv| != 3 ==> SendLeads(filename, company, argv, readColumns, indexExists) == Dispatch(filename, company, readColumns, indexExists)
  {
  }

  /** Only the second path segment names the index: `a/b/c.csv` gives `b`. */
  lemma StemOfNestedPath()
    ensures IndexStem("a/b/c.csv") == Ok("b")
  {
    JoinTriple("a", "b", "c.csv", '/');
    assert "a" + ['/'] + "b" + ['/'] + "c.csv" == "a/b/c.csv";
    SplitJoin(["a", "b", "c.csv"], '/');
    SplitJoin(["b"], '.');
  }

  lemma SplitTwo(a: string, b: string, s: string, sep: char)
    requires sep !in a && sep !in b && s == a + [sep] + b
    ensures Split(s, sep) == [a, b]
  {
    JoinPair(a, b, sep);
    SplitJoin([a, b], sep);
  }

  /** The first piece of a split is everything before the first separator. */
  lemma {:induction false} SplitFirstPiece(x: string, y: string, sep: char)
    requires sep !in x
    ensures Split(x + [sep] + y, sep)[0] == x
    decreases |x|
  {
    var s := x + [sep] + y;
    if |x| > 0 {
      assert s[1..] == x[1..] + [sep] + y;
      SplitFirstPiece(x[1..], y, sep);
      assert x == [x[0]] + x[1..];
    }
  }

  /**
   A path `dir/stem.ext` names the index after `stem`, whatever the extension
   holds (further dots included).
   */
  lemma StemOfDirFile(dir: string, stem: string, ext: string)
    requires '/' !in dir && '/' !in stem && '.' !in stem && '/' !in ext
    ensures IndexStem(dir + "/" + stem + "." + ext) == Ok(stem)
  {
    var file := stem + "." + ext;
    assert '/' !in file;
    assert dir + "/" + stem + "." + ext == dir + ['/'] + file;
    SplitTwo(dir, file, dir + ['/'] + file, '/');
    SplitFirstPiece(stem, ext, '.');
  }

  /** A bare file name has no second segment: `leads.csv` raises `IndexError`. */
  lemma StemOfBareName()
    ensures IndexStem("leads.csv") == Err(IndexError)
  {
    assert forall i | 0 <= i < |"leads.csv"| :: "leads.csv"[i] != '/';
  }

}
