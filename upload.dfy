/**
 * The upload controller: the extension allow-list applied to every uploaded file, and
 * `handleFileUploadAndProcessing`, which extracts both spreadsheets, routes each record
 * set to a table by a content test, inserts them, maps a thrown `"<code>|<message>"`
 * onto an HTTP status and deletes both temporary files.
 */
module Upload {
  import opened Wrappers
  import opened Text
  import opened Extraction
  import opened Repository

  // ------------------------------------------------------------ file names

  /** The name without its trailing `/` characters. */
  function StripTrailingSlashes(p: string): (r: string)
    ensures r == [] || r[|r| - 1] != '/'
    ensures |r| <= |p| && r == p[..|r|]
  {
    if p != [] && p[|p| - 1] == '/' then StripTrailingSlashes(p[..|p| - 1]) else p
  }

  /** The last index of `c` in `s`. */
  function LastIndexOf(s: string, c: char): (r: Option<nat>)
    ensures r.None? <==> c !in s
    ensures r.Some? ==> r.value < |s| && s[r.value] == c && c !in s[r.value + 1..]
  {
    if s == [] then None
    else if s[|s| - 1] == c then Some(|s| - 1)
    else
      var r := LastIndexOf(s[..|s| - 1], c);
      assert c in s[..|s| - 1] ==> c in s;
      assert c in s ==> c in s[..|s| - 1] by {
        if c in s {
          var i :| 0 <= i < |s| && s[i] == c;
          assert s[..|s| - 1][i] == c;
        }
      }
      if r.Some? then
        assert s[r.value + 1..] == s[..|s| - 1][r.value + 1..] + [s[|s| - 1]];
        r
      else r
  }

  /** The last component of a POSIX path. */
  function BaseName(p: string): (r: string)
    ensures '/' !in r
  {
    var q := StripTrailingSlashes(p);
    match LastIndexOf(q, '/')
    case None => q
    case Some(i) => q[i + 1..]
  }

  /**
   * Node's `path.extname`: from the last `.` of the last component to its end; empty when
   * there is no `.`, when the only `.` is the first character, and for `..`.
   */
  function ExtName(p: string): (r: string)
    ensures r == [] || (r[0] == '.' && '.' !in r[1..] && '/' !in r)
  {
    var b := BaseName(p);
    match LastIndexOf(b, '.')
    case None => ""
    case Some(d) => if d == 0 || b == ".." then "" else b[d..]
  }

  const AllowedExtensions: seq<string> := [".xlsx", ".xls", ".csv"]

  const InvalidFormat := Failure(400, "Formato de arquivo inválido. Apenas .xlsx, .xls, .csv são permitidos.")

  /** The upload middleware's `fileFilter`. */
  function FileFilter(originalName: string): (r: Outcome<Failure>)
    ensures r.Pass? <==> AsciiLower(ExtName(originalName)) in AllowedExtensions
    ensures r.Fail? ==> r.error == InvalidFormat
  {
    if AsciiLower(ExtName(originalName)) in AllowedExtensions then Pass else Fail(InvalidFormat)
  }

  /** `k` is the last index of `c` in `s` when `c` occurs there and not after it. */
  lemma {:induction false} LastIndexOfAt(s: string, c: char, k: nat)
    requires k < |s| && s[k] == c && c !in s[k + 1..]
    ensures LastIndexOf(s, c) == Some(k)
  {
    if k < |s| - 1 {
      assert s[|s| - 1] in s[k + 1..];
      assert s[..|s| - 1][k + 1..] == s[k + 1..|s| - 1];
      LastIndexOfAt(s[..|s| - 1], c, k);
    }
  }

  /** A name `stem + "." + ext` whose stem is a plain file name has extension `"." + ext`. */
  lemma ExtNameOfName(stem: string, ext: string)
    requires stem != [] && stem[0] != '.' && '/' !in stem
    requires '.' !in ext && '/' !in ext
    ensures ExtName(stem + "." + ext) == "." + ext
  {
    var p := stem + "." + ext;
    assert p[|p| - 1] != '/' by {
      if ext == [] { assert p[|p| - 1] == '.'; } else { assert p[|p| - 1] == ext[|ext| - 1]; }
    }
    assert '/' !in p by {
      assert forall i :: 0 <= i < |p| ==> p[i] == (if i < |stem| then stem[i] else if i == |stem| then '.' else ext[i - |stem| - 1]);
    }
    assert BaseName(p) == p;
    assert p[|stem| + 1..] == ext;
    LastIndexOfAt(p, '.', |stem|);
    assert p != ".." by {
      assert p[0] == stem[0];
    }
    assert p[|stem|..] == "." + ext;
  }

  /** A plain file name: not empty, no directory part, no leading dot. */
  predicate PlainStem(stem: string) {
    stem != [] && stem[0] != '.' && '/' !in stem
  }

  /** The allow-list ignores case: `report.XLSX` is accepted like `report.xlsx`. */
  lemma UpperCaseWorkbookAccepted(stem: string)
    requires PlainStem(stem)
    ensures FileFilter(stem + ".XLSX") == Pass
  {
    UpperCaseWorkbookExtension(stem);
    UpperCaseWorkbookAllowed();
  }

  lemma UpperCaseWorkbookExtension(stem: string)
    requires PlainStem(stem)
    ensures ExtName(stem + ".XLSX") == ".XLSX"
  {
    assert stem + ".XLSX" == stem + "." + "XLSX";
    ExtNameOfName(stem, "XLSX");
  }

  lemma UpperCaseWorkbookAllowed()
    ensures AsciiLower(".XLSX") in AllowedExtensions
  {
    assert AsciiLower(".XLSX") == ".xlsx";
  }

  lemma PlainStemExtended(stem: string)
    requires PlainStem(stem)
    ensures PlainStem(stem + ".xlsx")
  {
    assert (stem + ".xlsx")[0] == stem[0];
    assert '/' !in ".xlsx";
  }

  /** The extension alone decides, whatever dots the stem contains. */
  lemma LastExtensionDecides(stem: string, ext: string)
    requires PlainStem(stem) && '.' !in ext && '/' !in ext
    ensures FileFilter(stem + "." + ext).Pass? <==> AsciiLower("." + ext) in AllowedExtensions
  {
    ExtNameOfName(stem, ext);
  }

  lemma ExecutableRejected(stem: string)
    requires PlainStem(stem)
    ensures FileFilter(stem + ".exe") == Fail(InvalidFormat)
  {
    ExecutableExtension(stem);
    ExecutableNotAllowed();
  }

  lemma ExecutableExtension(stem: string)
    requires PlainStem(stem)
    ensures ExtName(stem + ".exe") == ".exe"
  {
    assert stem + ".exe" == stem + "." + "exe";
    ExtNameOfName(stem, "exe");
  }

  lemma ExecutableNotAllowed()
    ensures AsciiLower(".exe") !in AllowedExtensions
  {
    assert AsciiLower(".exe") == ".exe";
    assert ".exe"[1] != ".xls"[1] && ".exe"[1] != ".csv"[1];
  }

  /** Only the last extension counts: `report.xlsx.exe` is rejected. */
  lemma DoubleExtensionRejected(stem: string)
    requires PlainStem(stem)
    ensures FileFilter(stem + ".xlsx.exe") == Fail(InvalidFormat)
  {
    var inner := stem + ".xlsx";
    PlainStemExtended(stem);
    ExecutableRejected(inner);
    Assoc(stem, ".xlsx", ".exe");
    assert ".xlsx" + ".exe" == ".xlsx.exe";
  }

  /** A leading dot does not start an extension: a file called `.xlsx` is rejected. */
  lemma HiddenFileRejected(name: string)
    requires '/' !in name && '.' !in name
    ensures ExtName("." + name) == "" && FileFilter("." + name) == Fail(InvalidFormat)
  {
    var p := "." + name;
    assert p[1..] == name;
    assert p[|p| - 1] != '/';
    assert '/' !in p by {
      assert forall i :: 0 <= i < |p| ==> p[i] == (if i == 0 then '.' else name[i - 1]);
    }
    assert BaseName(p) == p;
    LastIndexOfAt(p, '.', 0);
    assert AsciiLower("") == "";
  }

  /** A name without a dot has no extension and is rejected. */
  lemma BareNameRejected(name: string)
    requires '/' !in name && '.' !in name
    ensures ExtName(name) == "" && FileFilter(name) == Fail(InvalidFormat)
  {
    if name != [] {
      assert name[|name| - 1] in name;
    }
    assert BaseName(name) == name;
    assert AsciiLower("") == "";
  }

  // ------------------------------------------------------------ error mapping

  const DefaultErrorText := "Erro no processamento dos arquivos."

  /** `new Error('<code>|<message>')`: the text a failure is thrown with. */
  function Thrown(f: Failure): string {
    NatToString(f.code) + "|" + f.message
  }

  /** Whatever the message holds, the piece before the first `|` reads back as the code. */
  lemma ThrownLeadsWithCode(f: Failure)
    ensures ParseInt(Split(Thrown(f), '|')[0]) == Some(f.code)
  {
    var digits := NatToString(f.code);
    assert '|' !in digits;
    SplitHead(digits, '|', f.message);
    ParseIntNatToString(f.code);
  }

  /**
   * The `catch` block: split the message on `|`; the status is `parseInt` of the first
   * piece, or 500 when that is `NaN` or 0; the text is the second piece, or the default
   * text when it is missing or empty.
   */
  function ErrorResponse(thrown: string): (r: (int, string))
    ensures var parts := Split(thrown, '|');
            r.0 == (if ParseInt(parts[0]).None? || ParseInt(parts[0]) == Some(0) then 500 else ParseInt(parts[0]).value)
    ensures r.0 != 0 && r.1 != ""
  {
    var parts := Split(thrown, '|');
    var code := ParseInt(parts[0]);
    var status := if code.None? || code.value == 0 then 500 else code.value;
    var text := if |parts| < 2 || parts[1] == "" then DefaultErrorText else parts[1];
    (status, text)
  }

  /** A failure with a non-zero code and a message without `|` reaches the client intact. */
  lemma ErrorResponseRoundTrip(f: Failure)
    requires f.code != 0 && f.message != "" && '|' !in f.message
    ensures ErrorResponse(Thrown(f)) == (f.code, f.message)
  {
    ErrorResponseRoundTripParts(f.code, f.message);
  }

  /** Only the piece between the first and the second `|` is shown; what follows is dropped. */
  lemma ErrorTextIsSecondPiece(code: nat, message: string, rest: string)
    requires message != "" && '|' !in message
    ensures ErrorResponse(NatToString(code) + "|" + message + "|" + rest).1 == message
  {
    var digits := NatToString(code);
    assert '|' !in digits;
    Regroup(digits + "|", message, "|", rest);
    Assoc(message, "|", rest);
    SplitCons(digits, '|', message + "|" + rest);
    SplitCons(message, '|', rest);
  }

  /** An empty message after the code is replaced by the default text. */
  lemma EmptyMessageIsDefault(code: nat)
    ensures ErrorResponse(Thrown(Failure(code, ""))) == (if code == 0 then 500 else code, DefaultErrorText)
  {
    ErrorResponseRoundTripParts(code, "");
  }

  /** A message that is not of the `code|message` form becomes a 500 with the default text. */
  lemma PlainErrorIs500(thrown: string)
    requires '|' !in thrown
    requires ParseInt(thrown).None?
    ensures ErrorResponse(thrown) == (500, DefaultErrorText)
  {
    SplitJoin([thrown], '|');
    assert Join([thrown], ['|']) == thrown;
  }

  /** A code of 0 is falsy and also becomes 500, while the message survives. */
  lemma ZeroCodeIs500(message: string)
    requires message != "" && '|' !in message
    ensures ErrorResponse(Thrown(Failure(0, message))) == (500, message)
  {
    ErrorResponseRoundTripParts(0, message);
  }

  lemma ErrorResponseRoundTripParts(code: nat, message: string)
    requires '|' !in message
    ensures Split(Thrown(Failure(code, message)), '|') == [NatToString(code), message]
    ensures ParseInt(NatToString(code)) == Some(code)
  {
    var digits := NatToString(code);
    assert '|' !in digits;
    assert Join([digits, message], ['|']) == Thrown(Failure(code, message));
    SplitJoin([digits, message], '|');
    ParseIntNatToString(code);
  }

  /** The first piece of a split starts with the first character, when that is not the separator. */
  lemma SplitFirstChar(s: string, c: char)
    requires |s| > 0 && s[0] != c
    ensures |Split(s, c)[0]| > 0 && Split(s, c)[0][0] == s[0]
  {
    match IndexOf(s, c)
    case None =>
    case Some(i) =>
      assert i > 0;
      assert Split(s, c)[0] == s[..i];
  }

  /** A thrown text that starts with a letter is no `code|message`: it answers 500. */
  lemma LetterLedErrorIs500(thrown: string)
    requires |thrown| > 0 && ('a' <= thrown[0] <= 'z' || 'A' <= thrown[0] <= 'Z')
    ensures ErrorResponse(thrown).0 == 500
  {
    SplitFirstChar(thrown, '|');
    var first := Split(thrown, '|')[0];
    LetterLedNaN(first);
  }

  /** `parseInt` of a text that starts with a letter is `NaN`. */
  lemma LetterLedNaN(s: string)
    requires |s| > 0 && ('a' <= s[0] <= 'z' || 'A' <= s[0] <= 'Z')
    ensures ParseInt(s).None?
  {
    ParseIntUnsigned(s);
    assert ReadMagnitude(s) == ReadDigits(s, 10);
    assert ReadDigits(s, 10).None? by { assert !IsRadixDigit(s[0], 10); }
  }

  /** The database's own error text carries no code, so a rejected insert answers 500. */
  lemma NotNullErrorIs500(t: Table)
    ensures ErrorResponse(NotNullMessage(t)).0 == 500
  {
    assert NotNullMessage(t)[0] == 'n';
    LetterLedErrorIs500(NotNullMessage(t));
  }

  // ------------------------------------------------------------ routing

  /** The table a record set is inserted into: `data.some(row => 'pressao_succao' in row)` picks the Zeus table. */
  function Route(records: seq<Record>): (t: Table)
    ensures t == ZeusTable <==> exists i :: 0 <= i < |records| && "pressao_succao" in records[i]
  {
    if exists i :: 0 <= i < |records| && "pressao_succao" in records[i] then ZeusTable else ElipseTable
  }

  /** The label the success response reports for a routing decision. */
  function Label(t: Table): (s: string)
    ensures s == "Zeus" <==> t == ZeusTable
    ensures s == "Elipse" <==> t == ElipseTable
  {
    match t
    case ZeusTable => "Zeus"
    case ElipseTable => "Elipse"
  }

  /** An empty record set goes to Elipse, whose insert then sends nothing. */
  lemma EmptyRoutesToElipse()
    ensures Route([]) == ElipseTable
  {
  }

  /** Every extracted record is the record built from some data row. */
  lemma {:induction false} MaterialisedFromRow(keys: seq<Option<string>>, rows: seq<seq<string>>, i: nat) returns (r: nat)
    requires i < |Materialise(keys, rows)|
    ensures r < |rows| && Materialise(keys, rows)[i] == BuildRecord(keys, rows[r])
  {
    var j := MaterialiseStep(keys, rows, i);
    if j.Some? {
      var r' := MaterialisedFromRow(keys, rows[1..], j.value);
      r := r' + 1;
      assert rows[1..][r'] == rows[r];
    } else {
      r := 0;
    }
  }

  /** Record `i` is the first row's record, or record `j` of the rest. */
  lemma MaterialiseStep(keys: seq<Option<string>>, rows: seq<seq<string>>, i: nat) returns (j: Option<nat>)
    requires i < |Materialise(keys, rows)|
    ensures j.None? ==> Materialise(keys, rows)[i] == BuildRecord(keys, rows[0])
    ensures j.Some? ==> j.value < |Materialise(keys, rows[1..])| &&
                        Materialise(keys, rows)[i] == Materialise(keys, rows[1..])[j.value]
  {
    var head: seq<Record> := if |BuildRecord(keys, rows[0])| > 0 then [BuildRecord(keys, rows[0])] else [];
    assert Materialise(keys, rows) == head + Materialise(keys, rows[1..]);
    j := if i < |head| then None else Some(i - |head|);
  }

  /** Record sets built from rows whose `pressao_succao` columns are all empty go to the Elipse table. */
  lemma BlankColumnRoutesToElipse(keys: seq<Option<string>>, rows: seq<seq<string>>)
    requires forall r, j ::
               0 <= r < |rows| && 0 <= j < |keys| && j < |rows[r]| && keys[j] == Some("pressao_succao")
               ==> rows[r][j] == ""
    ensures Route(Materialise(keys, rows)) == ElipseTable
  {
    var records := Materialise(keys, rows);
    if exists i :: 0 <= i < |records| && "pressao_succao" in records[i] {
      var i :| 0 <= i < |records| && "pressao_succao" in records[i];
      var r := MaterialisedFromRow(keys, rows, i);
      RecordPrefixHas(keys, rows[r], Min(|keys|, |rows[r]|), "pressao_succao");
      assert false;
    }
  }

  /**
   * The routing test looks at the cells, not at the schema: a sheet that validates as Zeus
   * but whose `pressao_succao` column is empty in every data row is sent to the Elipse table.
   */
  lemma BlankSuctionRoutesToElipse(grid: seq<seq<string>>)
    requires |grid| > 1 && CheckHeaders(FoundHeaders(grid[0])) == Ok(Zeus)
    requires forall r, j ::
               1 <= r < |grid| && 0 <= j < |grid[0]| && j < |grid[r]| && HeaderKeys(grid[0])[j] == Some("pressao_succao")
               ==> grid[r][j] == ""
    ensures Extract(Readable(grid)).Ok? && Route(Extract(Readable(grid)).value) == ElipseTable
  {
    var keys, rows := HeaderKeys(grid[0]), grid[1..];
    forall r, j | 0 <= r < |rows| && 0 <= j < |keys| && j < |rows[r]| && keys[j] == Some("pressao_succao")
      ensures rows[r][j] == ""
    {
      assert rows[r] == grid[r + 1];
    }
    BlankColumnRoutesToElipse(keys, rows);
    ExtractRecords(grid);
  }

  // ------------------------------------------------------------ the handler

  datatype UploadedFile = UploadedFile(path: string, sheet: Sheet)

  /** The two file fields of the multipart request; `None` when a field was not sent. */
  datatype Request = Request(planilha1: Option<UploadedFile>, planilha2: Option<UploadedFile>)

  datatype Body =
    | Processed(message: string, planilha1: string, planilha2: string)
    | Rejected(error: string, code: int)
    | Failed(error: string, details: string, code: int)

  datatype Response = Response(status: int, body: Body)

  /** What the handler does, in order, besides answering. */
  datatype Event =
    | Extracted(path: string)
    | InsertCalled(table: Table, count: nat)
    | Unlinked(path: string, deleted: bool)

  const MissingFilesMessage := "É necessário enviar os dois arquivos: planilha1 e planilha2."
  const SuccessMessage := "Arquivos processados e dados inseridos no banco de dados com sucesso."

  function MissingFilesResponse(): (r: Response)
    ensures r.status == 400 && r.body.Rejected? && r.body.code == r.status && r.body.error == MissingFilesMessage
  {
    Response(400, Rejected(MissingFilesMessage, 400))
  }

  /** The `catch` block's answer to a thrown text. */
  function FailureResponse(thrown: string): (r: Response)
    ensures r.body.Failed? && r.body.details == thrown && r.body.code == r.status
    ensures r.status == ErrorResponse(thrown).0 && r.body.error == ErrorResponse(thrown).1
    ensures r.status != 0 && r.body.error != ""
  {
    var (status, text) := ErrorResponse(thrown);
    Response(status, Failed(text, thrown, status))
  }

  /** The effect of `insertZeusData` / `insertElipseData` on the tables and the statement log. */
  datatype Applied = Applied(outcome: Outcome<string>, tables: Tables, sent: seq<Statement>)

  function ApplyInsert(ts: Tables, t: Table, data: seq<Record>, fault: Option<string>): (a: Applied)
    ensures a.outcome.Fail? ==> a.tables == ts
    ensures data == [] ==> a == Applied(Pass, ts, [])
    ensures data != [] ==> a.sent == [BatchStatement(t, data)]
  {
    if data == [] then Applied(Pass, ts, [])
    else
      var (o, next) := Execute(ts, BatchStatement(t, data), fault);
      Applied(o, next, [BatchStatement(t, data)])
  }

  /** How the `try` block ends: both record sets stored in the tables chosen, or a thrown text. */
  datatype Verdict = Stored(table1: Table, table2: Table) | Threw(thrown: string)

  /** The answer to a verdict: the success body, or the `catch` block's mapping. */
  function Respond(v: Verdict): (r: Response)
    ensures r.body.Processed? <==> v.Stored?
    ensures v.Stored? ==> r.status == 200 && r.body.message == SuccessMessage &&
                          r.body.planilha1 == Label(v.table1) && r.body.planilha2 == Label(v.table2)
    ensures v.Threw? ==> r.status == ErrorResponse(v.thrown).0 && r.body.Failed? && r.body.details == v.thrown
  {
    match v
    case Stored(t1, t2) => Response(200, Processed(SuccessMessage, Label(t1), Label(t2)))
    case Threw(thrown) => FailureResponse(thrown)
  }

  /** What the `try` block produces. */
  datatype Run = Run(verdict: Verdict, tables: Tables, sent: seq<Statement>, events: seq<Event>)

  /**
   * The `try` block, given what extracting each file gives and what the server does to the
   * first and the second insert. The second file is only read when the first one was
   * extracted; nothing is inserted before both were.
   */
  function Process(ts: Tables, path1: string, path2: string,
                   extracted1: Result<seq<Record>>, extracted2: Result<seq<Record>>,
                   fault1: Option<string>, fault2: Option<string>): Run
  {
    var e1 := [Extracted(path1)];
    if extracted1.Err? then Run(Threw(Thrown(extracted1.error)), ts, [], e1)
    else
      var e2 := e1 + [Extracted(path2)];
      if extracted2.Err? then Run(Threw(Thrown(extracted2.error)), ts, [], e2)
      else Store(ts, e2, extracted1.value, extracted2.value, fault1, fault2)
  }

  /** Route and insert the first record set, then the second. */
  function Store(ts: Tables, events: seq<Event>, data1: seq<Record>, data2: seq<Record>,
                 fault1: Option<string>, fault2: Option<string>): Run
  {
    var t1, t2 := Route(data1), Route(data2);
    var a1 := ApplyInsert(ts, t1, data1, fault1);
    var e3 := events + [InsertCalled(t1, |data1|)];
    if a1.outcome.Fail? then Run(Threw(a1.outcome.error), a1.tables, a1.sent, e3)
    else
      var a2 := ApplyInsert(a1.tables, t2, data2, fault2);
      var e4 := e3 + [InsertCalled(t2, |data2|)];
      if a2.outcome.Fail? then Run(Threw(a2.outcome.error), a2.tables, a1.sent + a2.sent, e4)
      else Run(Stored(t1, t2), a2.tables, a1.sent + a2.sent, e4)
  }

  /** The `finally` block: one unlink attempt per path, in order; `failing` holds the paths whose unlink throws. */
  function Cleanup(paths: seq<string>, failing: set<string>): (r: seq<Event>)
    ensures |r| == |paths|
    ensures forall i :: 0 <= i < |paths| ==> r[i] == Unlinked(paths[i], paths[i] !in failing)
  {
    if paths == [] then []
    else Cleanup(paths[..|paths| - 1], failing) + [Unlinked(paths[|paths| - 1], paths[|paths| - 1] !in failing)]
  }

  /**
   * `handleFileUploadAndProcessing`. `fault1` and `fault2` are what the server does to the
   * first and second statement; `failing` lists the temporary paths whose deletion fails.
   * The answer does not depend on `failing`.
   */
  method HandleUpload(db: Database, req: Request, fault1: Option<string>, fault2: Option<string>, failing: set<string>)
    returns (response: Response, events: seq<Event>)
    modifies db
    ensures req.planilha1.None? || req.planilha2.None? ==>
              response == MissingFilesResponse() && events == [] &&
              db.tables == old(db.tables) && db.log == old(db.log)
    ensures req.planilha1.Some? && req.planilha2.Some? ==>
              var file1, file2 := req.planilha1.value, req.planilha2.value;
              var run := Process(old(db.tables), file1.path, file2.path, Extract(file1.sheet), Extract(file2.sheet), fault1, fault2);
              response == Respond(run.verdict) && db.tables == run.tables && db.log == old(db.log) + run.sent &&
              events == run.events + Cleanup([file1.path, file2.path], failing)
  {
    if req.planilha1.None? || req.planilha2.None? {
      return MissingFilesResponse(), [];
    }
    var file1, file2 := req.planilha1.value, req.planilha2.value;
    var filePaths := [file1.path, file2.path];
    var verdict;
    verdict, events := Attempt(db, file1, file2, fault1, fault2);
    response := Respond(verdict);

    var cleanup := RemoveTemporaries(filePaths, failing);
    events := events + cleanup;
  }

  /** The `finally` loop: try to delete each temporary file; a failure is only logged. */
  method RemoveTemporaries(filePaths: seq<string>, failing: set<string>) returns (events: seq<Event>)
    ensures events == Cleanup(filePaths, failing)
  {
    events := [];
    var i := 0;
    while i < |filePaths|
      invariant i <= |filePaths|
      invariant events == Cleanup(filePaths[..i], failing)
    {
      var deleted := filePaths[i] !in failing;
      assert filePaths[..i + 1][..i] == filePaths[..i];
      events := events + [Unlinked(filePaths[i], deleted)];
      i := i + 1;
    }
    assert filePaths[..|filePaths|] == filePaths;
  }

  /** The `try` block: extract both files, then route and insert. */
  method Attempt(db: Database, file1: UploadedFile, file2: UploadedFile, fault1: Option<string>, fault2: Option<string>)
    returns (verdict: Verdict, events: seq<Event>)
    modifies db
    ensures var run := Process(old(db.tables), file1.path, file2.path, Extract(file1.sheet), Extract(file2.sheet), fault1, fault2);
            verdict == run.verdict && db.tables == run.tables && db.log == old(db.log) + run.sent && events == run.events
  {
    var extracted1 := Extract(file1.sheet);
    events := [Extracted(file1.path)];
    if extracted1.Err? {
      return Threw(Thrown(extracted1.error)), events;
    }
    var extracted2 := Extract(file2.sheet);
    events := events + [Extracted(file2.path)];
    if extracted2.Err? {
      return Threw(Thrown(extracted2.error)), events;
    }
    verdict, events := Persist(db, events, extracted1.value, extracted2.value, fault1, fault2);
  }

  /** Route and insert both record sets. */
  method Persist(db: Database, events0: seq<Event>, data1: seq<Record>, data2: seq<Record>,
                 fault1: Option<string>, fault2: Option<string>)
    returns (verdict: Verdict, events: seq<Event>)
    modifies db
    ensures var run := Store(old(db.tables), events0, data1, data2, fault1, fault2);
            verdict == run.verdict && db.tables == run.tables && db.log == old(db.log) + run.sent && events == run.events
  {
    var table1, outcome1 := InsertRouted(db, data1, fault1);
    events := events0 + [InsertCalled(table1, |data1|)];
    if outcome1.Fail? {
      return Threw(outcome1.error), events;
    }
    var table2, outcome2 := InsertRouted(db, data2, fault2);
    events := events + [InsertCalled(table2, |data2|)];
    if outcome2.Fail? {
      return Threw(outcome2.error), events;
    }
    verdict := Stored(table1, table2);
  }

  /** `isZeus = data.some(row => 'pressao_succao' in row)`, then the insert it selects. */
  method InsertRouted(db: Database, data: seq<Record>, fault: Option<string>) returns (table: Table, outcome: Outcome<string>)
    modifies db
    ensures table == Route(data)
    ensures var a := ApplyInsert(old(db.tables), table, data, fault);
            outcome == a.outcome && db.tables == a.tables && db.log == old(db.log) + a.sent
  {
    var isZeus := exists i :: 0 <= i < |data| && "pressao_succao" in data[i];
    if isZeus {
      table := ZeusTable;
      outcome := InsertZeusData(db, data, fault);
    } else {
      table := ElipseTable;
      outcome := InsertElipseData(db, data, fault);
    }
  }

  // ------------------------------------------------------------ handler properties

  /** An extraction error in either file sends no statement at all, and its text is what is thrown. */
  lemma ExtractionFailureInsertsNothing(ts: Tables, path1: string, path2: string,
                                        extracted1: Result<seq<Record>>, extracted2: Result<seq<Record>>,
                                        fault1: Option<string>, fault2: Option<string>)
    requires extracted1.Err? || extracted2.Err?
    ensures var run := Process(ts, path1, path2, extracted1, extracted2, fault1, fault2);
            run.tables == ts && run.sent == [] &&
            forall i :: 0 <= i < |run.events| ==> run.events[i].Extracted?
    ensures var run := Process(ts, path1, path2, extracted1, extracted2, fault1, fault2);
            run.verdict == Threw(Thrown(if extracted1.Err? then extracted1.error else extracted2.error))
  {
  }

  /** When an insert is called, both files have been extracted already, the first one first. */
  lemma ExtractBothThenInsert(ts: Tables, path1: string, path2: string,
                              extracted1: Result<seq<Record>>, extracted2: Result<seq<Record>>,
                              fault1: Option<string>, fault2: Option<string>, k: nat)
    requires k < |Process(ts, path1, path2, extracted1, extracted2, fault1, fault2).events|
    requires Process(ts, path1, path2, extracted1, extracted2, fault1, fault2).events[k].InsertCalled?
    ensures extracted1.Ok? && extracted2.Ok?
    ensures var events := Process(ts, path1, path2, extracted1, extracted2, fault1, fault2).events;
            k >= 2 && events[..2] == [Extracted(path1), Extracted(path2)]
  {
    if extracted1.Ok? && extracted2.Ok? {
      StoreKeepsEvents(ts, [Extracted(path1), Extracted(path2)], extracted1.value, extracted2.value, fault1, fault2);
    }
  }

  /** Storing only appends insert calls to the events so far. */
  lemma StoreKeepsEvents(ts: Tables, events: seq<Event>, data1: seq<Record>, data2: seq<Record>,
                         fault1: Option<string>, fault2: Option<string>)
    ensures var after := Store(ts, events, data1, data2, fault1, fault2).events;
            |events| < |after| && after[..|events|] == events &&
            forall i :: |events| <= i < |after| ==> after[i].InsertCalled?
  {
  }

  /** A failure of the second insert keeps what the first one did; its statement was still sent. */
  lemma SecondInsertFailureKeepsFirst(ts: Tables, path1: string, path2: string,
                                      data1: seq<Record>, data2: seq<Record>,
                                      fault1: Option<string>, fault2: Option<string>)
    requires ApplyInsert(ts, Route(data1), data1, fault1).outcome.Pass?
    requires ApplyInsert(ApplyInsert(ts, Route(data1), data1, fault1).tables, Route(data2), data2, fault2).outcome.Fail?
    ensures var a1 := ApplyInsert(ts, Route(data1), data1, fault1);
            var a2 := ApplyInsert(a1.tables, Route(data2), data2, fault2);
            var run := Process(ts, path1, path2, Ok(data1), Ok(data2), fault1, fault2);
            run.tables == a1.tables && run.sent == a1.sent + [BatchStatement(Route(data2), data2)] &&
            run.verdict == Threw(a2.outcome.error)
  {
  }

  /** The handler reports success exactly when both extractions and both inserts succeed, with the routing taken. */
  lemma SuccessReportsRouting(ts: Tables, path1: string, path2: string,
                              extracted1: Result<seq<Record>>, extracted2: Result<seq<Record>>,
                              fault1: Option<string>, fault2: Option<string>)
    ensures var run := Process(ts, path1, path2, extracted1, extracted2, fault1, fault2);
            run.verdict.Stored? <==>
              extracted1.Ok? && extracted2.Ok? &&
              var a1 := ApplyInsert(ts, Route(extracted1.value), extracted1.value, fault1);
              a1.outcome.Pass? && ApplyInsert(a1.tables, Route(extracted2.value), extracted2.value, fault2).outcome.Pass?
    ensures var run := Process(ts, path1, path2, extracted1, extracted2, fault1, fault2);
            run.verdict.Stored? ==>
              Respond(run.verdict) == Response(200, Processed(SuccessMessage, Label(Route(extracted1.value)), Label(Route(extracted2.value))))
  {
  }

  /** Nothing keeps the two files apart: two record sets of the same kind both go to that one table. */
  lemma BothFilesMayShareTable(ts: Tables, path1: string, path2: string, data1: seq<Record>, data2: seq<Record>,
                               fault1: Option<string>, fault2: Option<string>)
    requires data1 != [] && data2 != [] && Route(data1) == Route(data2)
    ensures var run := Process(ts, path1, path2, Ok(data1), Ok(data2), fault1, fault2);
            run.verdict.Stored? ==>
              run.verdict.table1 == run.verdict.table2 &&
              run.sent == [BatchStatement(Route(data1), data1), BatchStatement(Route(data1), data2)]
  {
  }

  /** Only a successful run answers with the success body. */
  lemma ThrownNeverProcessed(thrown: string)
    ensures !Respond(Threw(thrown)).body.Processed?
  {
  }

  /** Any extraction failure, a read failure included, answers 422. */
  lemma ExtractionFailureIs422(sheet: Sheet)
    requires Extract(sheet).Err?
    ensures FailureResponse(Thrown(Extract(sheet).error)).status == 422
  {
    var f := Extract(sheet).error;
    var digits := NatToString(f.code);
    assert '|' !in digits;
    SplitHead(digits, '|', f.message);
    ParseIntNatToString(f.code);
  }
}
