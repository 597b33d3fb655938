/**
 * Header normalisation, schema classification and validation, and record
 * materialisation: the decision logic of `extractDataFromSpreadsheet`.
 *
 * The spreadsheet arrives as the XLSX library delivers it: a grid of text cells,
 * row 0 holding the headers. An empty cell is `""` and stands for a cell the library
 * does not report at all, so it contributes neither a header nor a record value.
 */
module Extraction {
  import opened Wrappers
  import opened Text

  // ----------------------------------------------------------- data model

  /** One data row after extraction: canonical field name to the text of a non-empty cell. */
  type Record = map<string, string>

  /** What reading the uploaded file gave: the cells of its first sheet, or the library's error text. */
  datatype Sheet = Readable(grid: seq<seq<string>>) | Unreadable(reason: string)

  datatype Schema = Zeus | Elipse

  // ------------------------------------------------------- error messages

  const ReadFailurePrefix := "Falha ao ler o arquivo. Verifique o formato e permissões: "
  const EmptySheetMessage := "Planilha vazia: O arquivo não contém linhas de dados."
  const UnknownFormatPrefix := "Formato inesperado: Planilha com cabeçalhos não reconhecidos. Colunas encontradas: "
  const MissingColumnsPrefix := "Formato inesperado: Colunas essenciais faltando (verifique mapeamento): "

  // ---------------------------------------------------- header normaliser

  /** Spreadsheet labels known to the system, mapped to canonical field names. */
  const ColumnMap: map<string, string> := map[
    // Zeus sheet
    "Data/Hora" := "data_hora",
    "PRESSAO DE SUCCAO" := "pressao_succao",
    "PRESSAO DE RECALQUE" := "pressao_recal",
    "Total" := "total",
    "Vazao Media" := "vazao_media",
    "Evento" := "evento",
    // lower-case variants
    "pressao de succao" := "pressao_succao",
    "vazao media" := "vazao_media",
    "total" := "total",
    // Elipse sheet
    "datahora" := "data_hora",
    "nome_estacao" := "nome_estacao",
    "nome_variavel" := "nome_variavel",
    "var_local" := "var_local",
    "Valor" := "valor",
    "Unidade" := "unidade"
  ]

  /** The canonical field names: the values of `ColumnMap`. */
  const Canonical: set<string> := {
    "data_hora", "pressao_succao", "pressao_recal", "total", "vazao_media", "evento",
    "nome_estacao", "nome_variavel", "var_local", "valor", "unidade"
  }

  /** Every label maps to a canonical name. */
  lemma ColumnMapIntoCanonical()
    ensures forall k :: k in ColumnMap ==> ColumnMap[k] in Canonical
  {
  }

  /** Every canonical name is the image of some label. */
  lemma CanonicalAreImages()
    ensures forall v :: v in Canonical ==> exists k :: k in ColumnMap && ColumnMap[k] == v
  {
    ColumnMapEntries();
  }

  lemma CanonicalAreIdentifiers()
    ensures forall v :: v in Canonical ==> |v| > 0 && IsIdentifier(v)
  {
  }

  /**
   * `normalizeHeader`: trim, then look the label up as it is, then in lower case;
   * failing both, lower-case it and strip every character outside `[a-z0-9_]`.
   */
  function NormalizeHeader(colName: string): (r: string)
    ensures IsIdentifier(r)
  {
    var cleaned := Trim(colName);
    ValuesAreIdentifiers();
    if cleaned in ColumnMap then ColumnMap[cleaned]
    else
      var lower := AsciiLower(cleaned);
      if lower in ColumnMap then ColumnMap[lower]
      else Sanitise(lower)
  }

  lemma ValuesAreIdentifiers()
    ensures forall k :: k in ColumnMap ==> IsIdentifier(ColumnMap[k])
  {
    ColumnMapIntoCanonical();
    CanonicalAreIdentifiers();
  }

  lemma EmptyIsNoLabel()
    ensures "" !in ColumnMap
  {
  }

  /** A blank label, empty or all white space, normalises to the empty string. */
  lemma NormalizeBlank(s: string)
    requires AllSpace(s)
    ensures NormalizeHeader(s) == ""
  {
    EmptyIsNoLabel();
    TrimEmptyIffBlank(s);
    assert AsciiLower("") == "";
  }

  /** Surrounding white space never changes the normalised name. */
  lemma NormalizeIgnoresPadding(lead: string, s: string, trail: string)
    requires AllSpace(lead) && AllSpace(trail)
    ensures NormalizeHeader(lead + s + trail) == NormalizeHeader(s)
  {
    TrimIgnoresPadding(lead, s, trail);
  }

  /** Every label starts and ends with a visible character. */
  lemma LabelsHaveVisibleEnds()
    ensures forall k :: k in ColumnMap ==> |k| > 0 && '!' <= k[0] <= '~' && '!' <= k[|k| - 1] <= '~'
  {
  }

  /** The labels of the table carry no surrounding white space. */
  lemma LabelsAreTrimmed()
    ensures forall k :: k in ColumnMap ==> Trim(k) == k
  {
    LabelsHaveVisibleEnds();
    forall k | k in ColumnMap ensures Trim(k) == k {
      VisibleNotSpace(k[0]);
      VisibleNotSpace(k[|k| - 1]);
      TrimKeepsTrimmed(k);
    }
  }

  /** Every label of the table normalises to the canonical name the table gives it. */
  lemma NormalizeKnownLabels()
    ensures forall k :: k in ColumnMap ==> NormalizeHeader(k) == ColumnMap[k]
  {
    LabelsAreTrimmed();
  }

  /** The canonical names that are also labels are mapped to themselves. */
  lemma CanonicalLabelsFixed()
    ensures forall v :: v in Canonical && v in ColumnMap ==> ColumnMap[v] == v
  {
  }

  /** Every canonical name normalises to itself. */
  lemma NormalizeCanonicalFixed()
    ensures forall v :: v in Canonical ==> NormalizeHeader(v) == v
  {
    CanonicalAreIdentifiers();
    CanonicalLabelsFixed();
    forall v | v in Canonical ensures NormalizeHeader(v) == v {
      IdentifierTrimmed(v);
      AsciiLowerIdentifier(v);
    }
  }

  lemma LowerOfUpperLabels()
    ensures AsciiLower("Data/Hora") == "data/hora"
    ensures AsciiLower("PRESSAO DE SUCCAO") == "pressao de succao"
    ensures AsciiLower("PRESSAO DE RECALQUE") == "pressao de recalque"
  {
  }

  lemma LowerOfCapitalisedLabels()
    ensures AsciiLower("Total") == "total" && AsciiLower("Vazao Media") == "vazao media"
    ensures AsciiLower("Evento") == "evento" && AsciiLower("Valor") == "valor"
    ensures AsciiLower("Unidade") == "unidade"
  {
  }

  lemma LowerOfLowerLabels()
    ensures AsciiLower("total") == "total" && AsciiLower("datahora") == "datahora"
    ensures AsciiLower("nome_estacao") == "nome_estacao" && AsciiLower("nome_variavel") == "nome_variavel"
    ensures AsciiLower("var_local") == "var_local"
    ensures AsciiLower("pressao de succao") == "pressao de succao"
    ensures AsciiLower("vazao media") == "vazao media"
  {
  }

  lemma LowerLabelsOutsideTable()
    ensures "data/hora" !in ColumnMap && "pressao de recalque" !in ColumnMap
    ensures "evento" !in ColumnMap && "valor" !in ColumnMap && "unidade" !in ColumnMap
  {
  }

  lemma ColumnMapEntries()
    ensures ColumnMap["Data/Hora"] == "data_hora"
    ensures ColumnMap["PRESSAO DE SUCCAO"] == "pressao_succao"
    ensures ColumnMap["PRESSAO DE RECALQUE"] == "pressao_recal"
    ensures ColumnMap["Total"] == "total"
    ensures ColumnMap["Vazao Media"] == "vazao_media"
    ensures ColumnMap["Evento"] == "evento"
    ensures ColumnMap["pressao de succao"] == "pressao_succao"
    ensures ColumnMap["vazao media"] == "vazao_media"
    ensures ColumnMap["total"] == "total"
    ensures ColumnMap["datahora"] == "data_hora"
    ensures ColumnMap["nome_estacao"] == "nome_estacao"
    ensures ColumnMap["nome_variavel"] == "nome_variavel"
    ensures ColumnMap["var_local"] == "var_local"
    ensures ColumnMap["Valor"] == "valor"
    ensures ColumnMap["Unidade"] == "unidade"
  {
  }

  /** Lower-casing a label of the table never leads to an entry with a different canonical name. */
  lemma LowerCaseLabelAgrees(k: string)
    requires k in ColumnMap && AsciiLower(k) in ColumnMap
    ensures ColumnMap[AsciiLower(k)] == ColumnMap[k]
  {
    if k == "Data/Hora" || k == "PRESSAO DE SUCCAO" || k == "PRESSAO DE RECALQUE" {
      UpperLabelAgrees(k);
    } else if k == "Total" || k == "Vazao Media" || k == "Evento" || k == "Valor" || k == "Unidade" {
      CapitalisedLabelAgrees(k);
    } else {
      LowerOfLowerLabels();
    }
  }

  lemma UpperLabelAgrees(k: string)
    requires k == "Data/Hora" || k == "PRESSAO DE SUCCAO" || k == "PRESSAO DE RECALQUE"
    requires AsciiLower(k) in ColumnMap
    ensures ColumnMap[AsciiLower(k)] == ColumnMap[k]
  {
    LowerOfUpperLabels();
    LowerLabelsOutsideTable();
    ColumnMapEntries();
  }

  lemma CapitalisedLabelAgrees(k: string)
    requires k == "Total" || k == "Vazao Media" || k == "Evento" || k == "Valor" || k == "Unidade"
    requires AsciiLower(k) in ColumnMap
    ensures ColumnMap[AsciiLower(k)] == ColumnMap[k]
  {
    LowerOfCapitalisedLabels();
    LowerLabelsOutsideTable();
    ColumnMapEntries();
  }

  /**
   * Case-insensitive match of the lower-case labels: whenever the lower-cased, trimmed
   * label is in the table, that entry decides, even if the label also matched exactly.
   */
  lemma NormalizeCaseInsensitive(s: string)
    requires AsciiLower(Trim(s)) in ColumnMap
    ensures NormalizeHeader(s) == ColumnMap[AsciiLower(Trim(s))]
  {
    if Trim(s) in ColumnMap { LowerCaseLabelAgrees(Trim(s)); }
  }

  /**
   * The fallback is not looked up again: `DATA/HORA` becomes `datahora`, which is itself a
   * label of the table, and normalising once more gives `data_hora`.
   */
  lemma FallbackNotLookedUpAgain()
    ensures NormalizeHeader("DATA/HORA") == "datahora"
    ensures NormalizeHeader(NormalizeHeader("DATA/HORA")) == "data_hora"
  {
    DataHoraFallback();
    DatahoraIsLabel();
  }

  lemma DataHoraFallback()
    ensures NormalizeHeader("DATA/HORA") == "datahora"
  {
    TrimKeepsTrimmed("DATA/HORA");
    LowerDataHora();
    SanitiseDataHora();
  }

  lemma DatahoraIsLabel()
    ensures NormalizeHeader("datahora") == "data_hora"
  {
    TrimKeepsTrimmed("datahora");
    DatahoraEntry();
  }

  lemma DatahoraEntry()
    ensures "datahora" in ColumnMap && ColumnMap["datahora"] == "data_hora"
  {
  }

  lemma LowerDataHora()
    ensures AsciiLower("DATA/HORA") == "data/hora"
    ensures "DATA/HORA" !in ColumnMap && "data/hora" !in ColumnMap
  {
  }

  lemma DataHoraPieces()
    ensures "data/hora"[..4] == "data" && "data/hora"[4] == '/' && "data/hora"[5..] == "hora"
    ensures IsIdentifier("data") && IsIdentifier("hora")
  {
  }

  lemma SanitiseDataHora()
    ensures Sanitise("data/hora") == "datahora"
  {
    var s := "data/hora";
    DataHoraPieces();
    SanitiseDrop(s, 4);
    assert "data" + "hora" == "datahora";
  }

  // ------------------------------------------------ classifier / validator

  /** The header row, each label normalised, in column order. */
  function NormalizedHeaders(raw: seq<string>): (r: seq<string>)
    ensures |r| == |raw|
  {
    seq(|raw|, j requires 0 <= j < |raw| => NormalizeHeader(raw[j]))
  }

  /** `headers.filter(h => h && h.length > 0)`. */
  function NonEmpty(hs: seq<string>): (r: seq<string>)
    ensures forall h :: h in r <==> h in hs && h != ""
    ensures "" !in r
    ensures forall h :: h != "" ==> multiset(r)[h] == multiset(hs)[h]
    ensures IsSubsequence(r, hs)
  {
    if hs == [] then []
    else
      var rest := NonEmpty(hs[1..]);
      assert forall h :: h in hs <==> h == hs[0] || h in hs[1..];
      assert rest != [] ==> rest[0] in rest;
      assert hs == [hs[0]] + hs[1..];
      assert multiset(hs) == multiset([hs[0]]) + multiset(hs[1..]);
      if hs[0] != "" then [hs[0]] + rest else rest
  }

  /** `a` is `b` with some elements left out, order kept. */
  ghost predicate IsSubsequence<T>(a: seq<T>, b: seq<T>)
    decreases |b|
  {
    if a == [] then true
    else if b == [] then false
    else if a[0] == b[0] then IsSubsequence(a[1..], b[1..])
    else IsSubsequence(a, b[1..])
  }

  /** The headers that classification and validation look at. */
  function FoundHeaders(raw: seq<string>): (r: seq<string>)
    ensures forall i :: 0 <= i < |r| ==> IsIdentifier(r[i])
  {
    var r := NonEmpty(NormalizedHeaders(raw));
    assert forall i :: 0 <= i < |r| ==> IsIdentifier(r[i]) by {
      forall i | 0 <= i < |r| ensures IsIdentifier(r[i]) {
        assert r[i] in r;
      }
    }
    r
  }

  /** The found headers are exactly the non-empty normalized forms of the raw headers. */
  lemma FoundHeadersMembers(raw: seq<string>)
    ensures forall h :: h in FoundHeaders(raw) <==> h != "" && exists j :: 0 <= j < |raw| && NormalizeHeader(raw[j]) == h
  {
    var normalized := NormalizedHeaders(raw);
    forall h | h in normalized ensures exists j :: 0 <= j < |raw| && NormalizeHeader(raw[j]) == h {
      var j :| 0 <= j < |normalized| && normalized[j] == h;
      assert NormalizeHeader(raw[j]) == h;
    }
    forall h | exists j :: 0 <= j < |raw| && NormalizeHeader(raw[j]) == h ensures h in normalized {
      var j :| 0 <= j < |raw| && NormalizeHeader(raw[j]) == h;
      assert normalized[j] == h;
    }
  }

  /** The identity rules, Zeus first: `pressao_succao` or `vazao_media`; else `nome_estacao` and `valor`. */
  function Classify(headers: seq<string>): (r: Option<Schema>)
    ensures r == Some(Zeus) <==> "pressao_succao" in headers || "vazao_media" in headers
    ensures r == Some(Elipse) <==> !(r == Some(Zeus)) && "nome_estacao" in headers && "valor" in headers
  {
    if "pressao_succao" in headers || "vazao_media" in headers then Some(Zeus)
    else if "nome_estacao" in headers && "valor" in headers then Some(Elipse)
    else None
  }

  function RequiredColumns(schema: Schema): (r: seq<string>)
    ensures |r| >= 3 && r[0] == "data_hora"
    ensures forall i :: 0 <= i < |r| ==> r[i] in Canonical
  {
    match schema
    case Zeus => ["data_hora", "pressao_succao", "vazao_media", "total", "pressao_recal"]
    case Elipse => ["data_hora", "nome_estacao", "valor"]
  }

  /** `required.filter(c => !headers.includes(c))`: the set difference, in the order of `required`. */
  function MissingColumns(required: seq<string>, headers: seq<string>): (r: seq<string>)
    ensures forall c :: c in r <==> c in required && c !in headers
    ensures IsSubsequence(r, required)
  {
    if required == [] then []
    else
      var rest := MissingColumns(required[1..], headers);
      assert forall c :: c in required <==> c == required[0] || c in required[1..];
      assert rest != [] ==> rest[0] in rest;
      if required[0] !in headers then [required[0]] + rest else rest
  }

  /** Classify the found headers, then insist on every required column of the schema. */
  function CheckHeaders(found: seq<string>): (r: Result<Schema>)
    ensures r.Err? ==> r.error.code == 422
    ensures r.Ok? ==> Classify(found) == Some(r.value)
    ensures Classify(found).None? ==> r == Err(Failure(422, UnknownFormatPrefix + Join(found, ", ")))
    ensures Classify(found).Some? && MissingColumns(RequiredColumns(Classify(found).value), found) != [] ==>
              r == Err(Failure(422, MissingColumnsPrefix + Join(MissingColumns(RequiredColumns(Classify(found).value), found), ", ")))
  {
    match Classify(found)
    case None => Err(Failure(422, UnknownFormatPrefix + Join(found, ", ")))
    case Some(schema) =>
      var missing := MissingColumns(RequiredColumns(schema), found);
      if missing != [] then Err(Failure(422, MissingColumnsPrefix + Join(missing, ", ")))
      else Ok(schema)
  }

  /** Validation fails exactly when some required column of the recognised schema is absent. */
  lemma CheckHeadersIff(found: seq<string>)
    ensures CheckHeaders(found).Ok? <==>
              Classify(found).Some? &&
              forall c :: c in RequiredColumns(Classify(found).value) ==> c in found
    ensures CheckHeaders(found).Ok? ==> CheckHeaders(found).value == Classify(found).value
  {
    if Classify(found).Some? {
      var missing := MissingColumns(RequiredColumns(Classify(found).value), found);
      if missing != [] {
        assert missing[0] in missing;
      }
    }
  }

  /** Both identity rules can hold at once; the Zeus rule is tried first and wins. */
  lemma BothRulesPickZeus(found: seq<string>)
    requires "pressao_succao" in found && "nome_estacao" in found && "valor" in found
    ensures Classify(found) == Some(Zeus)
  {
  }

  // --------------------------------------------------------- materialiser

  /**
   * The key each column writes: a column whose header cell is absent is skipped by the
   * library; every other column writes under its normalised header, even an empty one.
   */
  function HeaderKeys(raw: seq<string>): (keys: seq<Option<string>>)
    ensures |keys| == |raw|
  {
    seq(|raw|, j requires 0 <= j < |raw| => if raw[j] == "" then None else Some(NormalizeHeader(raw[j])))
  }

  /** Column `j` of `row` writes `row[j]` under key `k`. */
  predicate Fills(keys: seq<Option<string>>, row: seq<string>, j: int, k: string) {
    0 <= j < |keys| && j < |row| && keys[j] == Some(k) && row[j] != ""
  }

  /** The object built from the first `n` columns, left to right, later columns overwriting earlier ones. */
  function RecordPrefix(keys: seq<Option<string>>, row: seq<string>, n: nat): (r: Record)
    requires n <= |keys| && n <= |row|
    ensures forall k :: k in r ==> Some(k) in keys && r[k] != ""
  {
    if n == 0 then map[]
    else
      var m := RecordPrefix(keys, row, n - 1);
      if keys[n - 1].Some? && row[n - 1] != "" then m[keys[n - 1].value := row[n - 1]] else m
  }

  function Min(a: nat, b: nat): nat {
    if a <= b then a else b
  }

  /** The record of one data row. */
  function BuildRecord(keys: seq<Option<string>>, row: seq<string>): (r: Record)
    ensures forall k :: k in r ==> Some(k) in keys && r[k] != ""
  {
    RecordPrefix(keys, row, Min(|keys|, |row|))
  }

  /** A key is present exactly when some column fills it. */
  lemma {:induction false} RecordPrefixHas(keys: seq<Option<string>>, row: seq<string>, n: nat, k: string)
    requires n <= |keys| && n <= |row|
    ensures k in RecordPrefix(keys, row, n) <==> exists j :: 0 <= j < n && Fills(keys, row, j, k)
  {
    if n > 0 {
      RecordPrefixHas(keys, row, n - 1, k);
      if Fills(keys, row, n - 1, k) {
        assert k in RecordPrefix(keys, row, n);
      } else if exists j :: 0 <= j < n && Fills(keys, row, j, k) {
        var j :| 0 <= j < n && Fills(keys, row, j, k);
        assert j < n - 1;
      }
    }
  }

  /** A present key holds the cell of the last column that fills it. */
  lemma {:induction false} RecordPrefixLast(keys: seq<Option<string>>, row: seq<string>, n: nat, k: string, j: nat)
    requires n <= |keys| && n <= |row|
    requires j < n && Fills(keys, row, j, k)
    requires forall j' :: j < j' < n ==> !Fills(keys, row, j', k)
    ensures k in RecordPrefix(keys, row, n) && RecordPrefix(keys, row, n)[k] == row[j]
  {
    if j < n - 1 {
      assert !Fills(keys, row, n - 1, k);
      RecordPrefixLast(keys, row, n - 1, k, j);
    }
  }

  /** The row has a non-empty cell under a present header. */
  ghost predicate HasData(keys: seq<Option<string>>, row: seq<string>) {
    exists j, k :: Fills(keys, row, j, k)
  }

  lemma BuildRecordEmptyIff(keys: seq<Option<string>>, row: seq<string>)
    ensures |BuildRecord(keys, row)| > 0 <==> HasData(keys, row)
  {
    var n := Min(|keys|, |row|);
    var r := BuildRecord(keys, row);
    if |r| > 0 {
      var k :| k in r;
      RecordPrefixHas(keys, row, n, k);
    }
    if HasData(keys, row) {
      var j, k :| Fills(keys, row, j, k);
      RecordPrefixHas(keys, row, n, k);
      assert k in r;
    }
  }

  /** `sheet_to_json` over the data rows followed by the filter that drops records with no key. */
  function Materialise(keys: seq<Option<string>>, rows: seq<seq<string>>): (r: seq<Record>)
    ensures |r| <= |rows|
    ensures forall i :: 0 <= i < |r| ==> |r[i]| > 0
    ensures forall i, k :: 0 <= i < |r| && k in r[i] ==> Some(k) in keys
  {
    if rows == [] then []
    else
      var rec := BuildRecord(keys, rows[0]);
      (if |rec| > 0 then [rec] else []) + Materialise(keys, rows[1..])
  }

  lemma {:induction false} MaterialiseAppend(keys: seq<Option<string>>, a: seq<seq<string>>, b: seq<seq<string>>)
    ensures Materialise(keys, a + b) == Materialise(keys, a) + Materialise(keys, b)
  {
    if a != [] {
      assert (a + b)[1..] == a[1..] + b;
      MaterialiseAppend(keys, a[1..], b);
    } else {
      assert a + b == b;
    }
  }

  /** Rows without data leave no record behind, wherever they occur. */
  lemma {:induction false} MaterialiseDropsBlankRows(keys: seq<Option<string>>, a: seq<seq<string>>, blank: seq<seq<string>>, b: seq<seq<string>>)
    requires forall i :: 0 <= i < |blank| ==> !HasData(keys, blank[i])
    ensures Materialise(keys, a + blank + b) == Materialise(keys, a + b)
  {
    BlankRowsVanish(keys, blank);
    MaterialiseAppend(keys, a + blank, b);
    MaterialiseAppend(keys, a, blank);
    MaterialiseAppend(keys, a, b);
    assert Materialise(keys, a + blank) == Materialise(keys, a);
  }

  lemma {:induction false} BlankRowsVanish(keys: seq<Option<string>>, blank: seq<seq<string>>)
    requires forall i :: 0 <= i < |blank| ==> !HasData(keys, blank[i])
    ensures Materialise(keys, blank) == []
  {
    if blank != [] {
      BuildRecordEmptyIff(keys, blank[0]);
      BlankRowsVanish(keys, blank[1..]);
    }
  }

  /** When every row has data, there is one record per row, in row order. */
  lemma {:induction false} MaterialiseKeepsDataRows(keys: seq<Option<string>>, rows: seq<seq<string>>)
    requires forall i :: 0 <= i < |rows| ==> HasData(keys, rows[i])
    ensures |Materialise(keys, rows)| == |rows|
    ensures forall i :: 0 <= i < |rows| ==> Materialise(keys, rows)[i] == BuildRecord(keys, rows[i])
  {
    if rows != [] {
      BuildRecordEmptyIff(keys, rows[0]);
      MaterialiseKeepsDataRows(keys, rows[1..]);
    }
  }

  // ------------------------------------------------------------ extractor

  /** `extractDataFromSpreadsheet`, from the point where the library has read the file. */
  function Extract(sheet: Sheet): (r: Result<seq<Record>>)
    ensures sheet.Unreadable? ==> r == Err(Failure(422, ReadFailurePrefix + sheet.reason))
    ensures sheet.Readable? && |sheet.grid| <= 1 ==> r == Err(Failure(422, EmptySheetMessage))
    ensures r.Err? ==> r.error.code == 422
    ensures sheet.Readable? && |sheet.grid| > 1 && CheckHeaders(FoundHeaders(sheet.grid[0])).Err? ==>
              r == Err(CheckHeaders(FoundHeaders(sheet.grid[0])).error)
    ensures r.Ok? ==> sheet.Readable? && |sheet.grid| > 1 && CheckHeaders(FoundHeaders(sheet.grid[0])).Ok?
    ensures r.Ok? ==> |r.value| <= |sheet.grid| - 1 && forall i :: 0 <= i < |r.value| ==> |r.value[i]| > 0
  {
    match sheet
    case Unreadable(reason) => Err(Failure(422, ReadFailurePrefix + reason))
    case Readable(grid) =>
      if |grid| <= 1 then Err(Failure(422, EmptySheetMessage))
      else
        match CheckHeaders(FoundHeaders(grid[0]))
        case Err(e) => Err(e)
        case Ok(_) => Ok(Materialise(HeaderKeys(grid[0]), grid[1..]))
  }

  /**
   * What a successful extraction returns: one record per data row that has data, in row
   * order, each keyed by the normalised header of its columns.
   */
  lemma ExtractRecords(grid: seq<seq<string>>)
    requires |grid| > 1 && CheckHeaders(FoundHeaders(grid[0])).Ok?
    ensures Extract(Readable(grid)) == Ok(Materialise(HeaderKeys(grid[0]), grid[1..]))
  {
  }

  /** A record key is always a non-empty normalised header of the file. */
  lemma ExtractedKeysAreFoundHeaders(sheet: Sheet, k: string, i: nat)
    requires Extract(sheet).Ok? && i < |Extract(sheet).value| && k in Extract(sheet).value[i]
    ensures k != "" ==> k in FoundHeaders(sheet.grid[0])
  {
    var raw := sheet.grid[0];
    var keys := HeaderKeys(raw);
    assert Some(k) in keys;
    var j :| 0 <= j < |keys| && keys[j] == Some(k);
    assert NormalizedHeaders(raw)[j] == k;
  }
}
