/**
 * The batch inserts of the data repository: `insertZeusData` and `insertElipseData`.
 *
 * Each builds, for n records, one flat parameter list and one `VALUES` clause of
 * n tuples of numbered parameters, and sends a single
 * `INSERT ... ON CONFLICT (data_hora) DO NOTHING` statement. The database is a
 * pair of tables keyed by `data_hora`; a statement is applied all at once or not
 * at all.
 */
module Repository {
  import opened Wrappers
  import opened Text
  import opened Extraction

  // ----------------------------------------------------------- data model

  /** A bound parameter: text, or SQL `NULL`. */
  type Value = Option<string>

  /** A stored row: one value per column of its table, in column order. */
  type Row = seq<Value>

  datatype Table = ZeusTable | ElipseTable

  function TableName(t: Table): string {
    match t
    case ZeusTable => "zeus"
    case ElipseTable => "elipse"
  }

  /** The fixed column projection of each table, conflict key first. */
  function Columns(t: Table): (cols: seq<string>)
    ensures |cols| == 6 && cols[0] == "data_hora"
  {
    match t
    case ZeusTable => ["data_hora", "pressao_succao", "pressao_recal", "total", "vazao_media", "evento"]
    case ElipseTable => ["data_hora", "nome_estacao", "nome_variavel", "var_local", "valor", "unidade"]
  }

  /**
   * An `INSERT INTO <table> (<columns>) VALUES <tuples> ON CONFLICT (data_hora) DO NOTHING`
   * statement with its parameters. Each tuple lists the 1-based numbers of the
   * parameters that fill one row.
   */
  datatype Statement = Insert(table: Table, columns: seq<string>, tuples: seq<seq<nat>>, params: seq<Value>)

  // ------------------------------------------------------- the parameters

  /** `row[col] || null`: an absent key and the empty string both become `NULL`. */
  function Cell(rec: Record, col: string): (v: Value)
    ensures v.Some? <==> col in rec && rec[col] != ""
    ensures v.Some? ==> v.value == rec[col]
  {
    if col in rec && rec[col] != "" then Some(rec[col]) else None
  }

  /** The values one record contributes, one per column, in column order. */
  function Projection(rec: Record, cols: seq<string>): (r: Row)
    ensures |r| == |cols|
  {
    seq(|cols|, j requires 0 <= j < |cols| => Cell(rec, cols[j]))
  }

  /** The flat parameter list: the projections of the records, record after record. */
  function Parameters(data: seq<Record>, cols: seq<string>): (r: seq<Value>)
    ensures |r| == |data| * |cols|
  {
    if data == [] then []
    else
      var n := |data|;
      assert (n - 1) * |cols| + |cols| == n * |cols|;
      Parameters(data[..n - 1], cols) + Projection(data[n - 1], cols)
  }

  /** The parameter numbers of the row with index `i`: `i * w + 1` up to `i * w + w`. */
  function TupleRefs(i: nat, w: nat): (r: seq<nat>)
    ensures |r| == w
  {
    seq(w, j requires 0 <= j < w => i * w + j + 1)
  }

  /** The `VALUES` clause of `n` rows of width `w`, as parameter numbers. */
  function RefTuples(n: nat, w: nat): (r: seq<seq<nat>>)
    ensures |r| == n
  {
    seq(n, i requires 0 <= i < n => TupleRefs(i, w))
  }

  /** The statement a batch of records becomes. */
  function BatchStatement(t: Table, data: seq<Record>): (st: Statement)
    ensures st.table == t && st.columns == Columns(t)
    ensures |st.tuples| == |data| && |st.params| == |data| * |st.columns|
  {
    Insert(t, Columns(t), RefTuples(|data|, |Columns(t)|), Parameters(data, Columns(t)))
  }

  // ---------------------------------------------------------- the SQL text

  /** `$<k>`. */
  function ParamRef(k: nat): (r: string)
    ensures |r| >= 1 && r[0] == '$' && ParseInt(r[1..]) == Some(k)
  {
    ParseIntNatToString(k);
    assert ("$" + NatToString(k))[1..] == NatToString(k);
    "$" + NatToString(k)
  }

  /** `(<refs joined by ", ">)`. */
  function TupleText(refs: seq<nat>): (r: string)
    ensures |r| >= 2 && r[0] == '(' && r[|r| - 1] == ')'
  {
    "(" + Join(RefTexts(refs), ", ") + ")"
  }

  /** The `$<k>` reference of each entry of `refs`. */
  function RefTexts(refs: seq<nat>): (r: seq<string>)
    ensures |r| == |refs|
  {
    if refs == [] then [] else [ParamRef(refs[0])] + RefTexts(refs[1..])
  }

  /** The placeholder text: the tuples joined by `", "`. */
  function PlaceholderText(tuples: seq<seq<nat>>): string {
    Join(TupleTexts(tuples), ", ")
  }

  /** The text of each tuple. */
  function TupleTexts(tuples: seq<seq<nat>>): (r: seq<string>)
    ensures |r| == |tuples|
  {
    if tuples == [] then [] else TupleTexts(tuples[..|tuples| - 1]) + [TupleText(tuples[|tuples| - 1])]
  }

  /** The text handed to the driver, white space included. */
  function Sql(st: Statement): (r: string)
    ensures var head := SqlHead(st);
            |head| + |PlaceholderText(st.tuples)| <= |r| &&
            r[|head|..|head| + |PlaceholderText(st.tuples)|] == PlaceholderText(st.tuples)
  {
    var head, values := SqlHead(st), PlaceholderText(st.tuples);
    var r := head + values + "\n        ON CONFLICT (data_hora) DO NOTHING;\n    ";
    assert r[|head|..|head| + |values|] == values;
    r
  }

  /** The statement text up to its `VALUES` keyword. */
  function SqlHead(st: Statement): string {
    "\n        INSERT INTO " + TableName(st.table) + " (" + Join(st.columns, ", ") + ")\n        VALUES "
  }

  // ------------------------------------------------ the placeholder numbering

  /**
   * The pieces between the `$` signs of a tuple's text followed by `close`: each
   * parameter number with what follows it up to the next `$`.
   */
  function TuplePieces(refs: seq<nat>, close: string): (r: seq<string>)
    requires |refs| >= 1
    ensures |r| == |refs|
    ensures forall j :: 0 <= j < |refs| - 1 ==> r[j] == NatToString(refs[j]) + ", "
    ensures r[|refs| - 1] == NatToString(refs[|refs| - 1]) + close
    decreases |refs|
  {
    if |refs| == 1 then [NatToString(refs[0]) + close]
    else [NatToString(refs[0]) + ", "] + TuplePieces(refs[1..], close)
  }

  /** The pieces between the `$` signs of the placeholder text followed by `tail`. */
  function ClausePieces(tuples: seq<seq<nat>>, tail: string): seq<string>
    requires |tuples| >= 1 && forall i :: 0 <= i < |tuples| ==> |tuples[i]| >= 1
    decreases |tuples|
  {
    var n := |tuples|;
    if n == 1 then TuplePieces(tuples[0], ")" + tail)
    else ClausePieces(tuples[..n - 1], ", (") + TuplePieces(tuples[n - 1], ")" + tail)
  }

  /** A piece that starts with the decimal numeral of `x`, followed by `,` or `)`, and holds no `$`. */
  ghost predicate NumberedPiece(p: string, x: nat) {
    var d := NatToString(x);
    |d| < |p| && p[..|d|] == d && (p[|d|] == ',' || p[|d|] == ')') && '$' !in p
  }

  lemma NumberedPieceOf(x: nat, t: string)
    requires t != [] && (t[0] == ',' || t[0] == ')') && '$' !in t
    ensures NumberedPiece(NatToString(x) + t, x)
  {
    var d := NatToString(x);
    assert (d + t)[..|d|] == d;
    assert (d + t)[|d|] == t[0];
    assert '$' !in d by {
      forall i | 0 <= i < |d| ensures d[i] != '$' { assert IsDigit(d[i]); }
    }
  }

  lemma NumberedPieceMoved(p: string, x: nat, q: string, y: nat)
    requires NumberedPiece(p, x) && p == q && x == y
    ensures NumberedPiece(q, y)
  {
  }

  /** `parseInt` of a numbered piece is its number. */
  lemma NumberedPieceParses(p: string, x: nat)
    requires NumberedPiece(p, x)
    ensures ParseInt(p) == Some(x)
  {
    var d := NatToString(x);
    var t := p[|d|..];
    assert p == d + t;
    ParseIntNumeralThen(x, t);
  }

  /** The parameter list of one tuple, followed by `close`, split at its `$` signs. */
  lemma {:induction false} RefListPieces(refs: seq<nat>, close: string)
    requires |refs| >= 1
    ensures Join(RefTexts(refs), ", ") + close == "$" + Join(TuplePieces(refs, close), "$")
    decreases |refs|
  {
    if |refs| == 1 {
      assert RefTexts(refs) == ["$" + NatToString(refs[0])];
    } else {
      RefListPieces(refs[1..], close);
      RefListFront(refs, close);
      PiecesFront(refs, close);
    }
  }

  /** The first reference of a longer list, split off its rendered text. */
  lemma RefListFront(refs: seq<nat>, close: string)
    requires |refs| >= 2
    ensures Join(RefTexts(refs), ", ") + close ==
            ("$" + NatToString(refs[0])) + (", " + (Join(RefTexts(refs[1..]), ", ") + close))
  {
    var rest := refs[1..];
    var j := Join(RefTexts(rest), ", ");
    calc {
      Join(RefTexts(refs), ", ") + close;
      { assert RefTexts(refs) == [ParamRef(refs[0])] + RefTexts(rest); }
      Join([ParamRef(refs[0])] + RefTexts(rest), ", ") + close;
      { JoinCons(ParamRef(refs[0]), RefTexts(rest), ", "); }
      ("$" + NatToString(refs[0])) + ", " + j + close;
      { Regroup("$" + NatToString(refs[0]), ", ", j, close); }
      ("$" + NatToString(refs[0])) + (", " + (j + close));
    }
  }

  /** The first piece of a longer tuple, split off the joined pieces. */
  lemma PiecesFront(refs: seq<nat>, close: string)
    requires |refs| >= 2
    ensures "$" + Join(TuplePieces(refs, close), "$") ==
            ("$" + NatToString(refs[0])) + (", " + ("$" + Join(TuplePieces(refs[1..], close), "$")))
  {
    var head := NatToString(refs[0]);
    var p := TuplePieces(refs[1..], close);
    var k := Join(p, "$");
    calc {
      "$" + Join(TuplePieces(refs, close), "$");
      { assert TuplePieces(refs, close) == [head + ", "] + p; }
      "$" + Join([head + ", "] + p, "$");
      { JoinCons(head + ", ", p, "$"); }
      "$" + (head + ", " + "$" + k);
      { Regroup(head, ", ", "$", k); }
      "$" + (head + (", " + ("$" + k)));
      { Assoc("$", head, ", " + ("$" + k)); }
      ("$" + head) + (", " + ("$" + k));
    }
  }

  /** A tuple's text, followed by `tail`, split at its `$` signs. */
  lemma TupleTextPieces(refs: seq<nat>, tail: string)
    requires |refs| >= 1
    ensures TupleText(refs) + tail == Join(["("] + TuplePieces(refs, ")" + tail), "$")
  {
    var pieces := TuplePieces(refs, ")" + tail);
    var j := Join(RefTexts(refs), ", ");
    var k := Join(pieces, "$");
    calc {
      TupleText(refs) + tail;
      "(" + j + ")" + tail;
      { Regroup("(", j, ")", tail); }
      "(" + (j + (")" + tail));
      { RefListPieces(refs, ")" + tail); }
      "(" + ("$" + k);
      { Assoc("(", "$", k); }
      "(" + "$" + k;
      { JoinCons("(", pieces, "$"); }
      Join(["("] + pieces, "$");
    }
  }

  /** The placeholder text of two or more tuples ends with `", "` and the last one's text. */
  lemma PlaceholderLast(tuples: seq<seq<nat>>)
    requires |tuples| >= 2
    ensures var n := |tuples|;
            PlaceholderText(tuples) == PlaceholderText(tuples[..n - 1]) + ", " + TupleText(tuples[n - 1])
  {
    var n := |tuples|;
    var last := TupleText(tuples[n - 1]);
    var earlier := TupleTexts(tuples[..n - 1]);
    calc {
      PlaceholderText(tuples);
      Join(earlier + [last], ", ");
      { JoinConcat(earlier, [last], ", "); }
      Join(earlier, ", ") + ", " + Join([last], ", ");
      Join(earlier, ", ") + ", " + last;
    }
  }

  /** The placeholder text of two or more tuples, followed by `tail`, cut before the last tuple's first `$`. */
  lemma PlaceholderSnoc(tuples: seq<seq<nat>>, tail: string)
    requires |tuples| >= 2 && forall i :: 0 <= i < |tuples| ==> |tuples[i]| >= 1
    ensures var n := |tuples|;
            PlaceholderText(tuples) + tail
            == PlaceholderText(tuples[..n - 1]) + ", (" + "$" + Join(TuplePieces(tuples[n - 1], ")" + tail), "$")
  {
    var n := |tuples|;
    var prefix := tuples[..n - 1];
    var last := TupleText(tuples[n - 1]);
    var earlier := PlaceholderText(prefix);
    var back := TuplePieces(tuples[n - 1], ")" + tail);
    var k := Join(back, "$");
    PlaceholderLast(tuples);
    assert last + tail == "(" + "$" + k by {
      TupleTextPieces(tuples[n - 1], tail);
      JoinCons("(", back, "$");
    }
    Glue(earlier, last, tail, k);
  }

  /** Moving the `(` that opens the last tuple to the front of the cut. */
  lemma Glue(earlier: string, last: string, tail: string, k: string)
    requires last + tail == "(" + "$" + k
    ensures earlier + ", " + last + tail == earlier + ", (" + "$" + k
  {
    calc {
      earlier + ", " + last + tail;
      { Regroup(earlier, ", ", last, tail); }
      earlier + (", " + (last + tail));
      { Assoc("(", "$", k); Assoc(", ", "(", "$" + k); }
      earlier + (", (" + ("$" + k));
      { Regroup(earlier, ", (", "$", k); }
      earlier + ", (" + "$" + k;
    }
  }

  /** The placeholder text, followed by `tail`, split at its `$` signs. */
  lemma {:induction false} PlaceholderPieces(tuples: seq<seq<nat>>, tail: string)
    requires |tuples| >= 1 && forall i :: 0 <= i < |tuples| ==> |tuples[i]| >= 1
    ensures PlaceholderText(tuples) + tail == Join(["("] + ClausePieces(tuples, tail), "$")
    decreases |tuples|
  {
    var n := |tuples|;
    if n == 1 {
      assert TupleTexts(tuples) == [TupleText(tuples[0])];
      TupleTextPieces(tuples[0], tail);
    } else {
      var prefix := tuples[..n - 1];
      var front := ["("] + ClausePieces(prefix, ", (");
      var back := TuplePieces(tuples[n - 1], ")" + tail);
      calc {
        PlaceholderText(tuples) + tail;
        { PlaceholderSnoc(tuples, tail); }
        PlaceholderText(prefix) + ", (" + "$" + Join(back, "$");
        { PlaceholderPieces(prefix, ", ("); }
        Join(front, "$") + "$" + Join(back, "$");
        { JoinConcat(front, back, "$"); }
        Join(front + back, "$");
        { Assoc(["("], ClausePieces(prefix, ", ("), back); }
        Join(["("] + ClausePieces(tuples, tail), "$");
      }
    }
  }

  /** Piece `j` of a tuple carries the tuple's `j`-th parameter number. */
  lemma TuplePieceNumbered(refs: seq<nat>, close: string, j: nat)
    requires j < |refs| && close != [] && close[0] == ')' && '$' !in close
    ensures NumberedPiece(TuplePieces(refs, close)[j], refs[j])
  {
    if j < |refs| - 1 {
      NumberedPieceOf(refs[j], ", ");
    } else {
      NumberedPieceOf(refs[j], close);
    }
  }

  /** There is one clause piece per parameter. */
  lemma {:induction false} ClausePiecesLength(tuples: seq<seq<nat>>, tail: string)
    requires |tuples| >= 1 && forall i :: 0 <= i < |tuples| ==> |tuples[i]| >= 1
    ensures |ClausePieces(tuples, tail)| == |Flatten(tuples)|
    decreases |tuples|
  {
    var n := |tuples|;
    if n == 1 {
      assert tuples == [] + [tuples[0]];
    } else {
      ClausePiecesLength(tuples[..n - 1], ", (");
    }
  }

  lemma FlattenLast(tuples: seq<seq<nat>>)
    requires |tuples| >= 1
    ensures Flatten(tuples) == Flatten(tuples[..|tuples| - 1]) + tuples[|tuples| - 1]
  {
  }

  lemma ClausePiecesLast(tuples: seq<seq<nat>>, tail: string)
    requires |tuples| >= 2 && forall i :: 0 <= i < |tuples| ==> |tuples[i]| >= 1
    ensures var n := |tuples|;
            ClausePieces(tuples, tail) == ClausePieces(tuples[..n - 1], ", (") + TuplePieces(tuples[n - 1], ")" + tail)
  {
  }

  /** Piece `k` of the clause carries the `k`-th parameter number of the flattened tuples. */
  lemma {:induction false} ClausePieceNumbered(tuples: seq<seq<nat>>, tail: string, k: nat)
    requires |tuples| >= 1 && forall i :: 0 <= i < |tuples| ==> |tuples[i]| >= 1
    requires '$' !in tail && k < |Flatten(tuples)|
    ensures k < |ClausePieces(tuples, tail)| && NumberedPiece(ClausePieces(tuples, tail)[k], Flatten(tuples)[k])
    decreases |tuples|, 1
  {
    var n := |tuples|;
    ClausePiecesLength(tuples, tail);
    if n == 1 {
      FlattenLast(tuples);
      assert |tuples[..0]| == 0;
      TuplePieceNumbered(tuples[0], ")" + tail, k);
    } else if k < |ClausePieces(tuples[..n - 1], ", (")| {
      EarlierPieceNumbered(tuples, tail, k);
    } else {
      LastTuplePieceNumbered(tuples, tail, k);
    }
  }

  /** A piece of an earlier tuple keeps its number when one more tuple follows. */
  lemma {:induction false} EarlierPieceNumbered(tuples: seq<seq<nat>>, tail: string, k: nat)
    requires |tuples| >= 2 && forall i :: 0 <= i < |tuples| ==> |tuples[i]| >= 1
    requires '$' !in tail && k < |ClausePieces(tuples[..|tuples| - 1], ", (")|
    ensures k < |Flatten(tuples)| && k < |ClausePieces(tuples, tail)|
    ensures NumberedPiece(ClausePieces(tuples, tail)[k], Flatten(tuples)[k])
    decreases |tuples|, 0
  {
    var n := |tuples|;
    var prefix := tuples[..n - 1];
    ClausePiecesLength(prefix, ", (");
    FlattenLast(tuples);
    ClausePiecesLast(tuples, tail);
    ClausePieceNumbered(prefix, ", (", k);
    NumberedPieceMoved(ClausePieces(prefix, ", (")[k], Flatten(prefix)[k],
                       ClausePieces(tuples, tail)[k], Flatten(tuples)[k]);
  }

  /** A piece of the last tuple carries that tuple's parameter number. */
  lemma LastTuplePieceNumbered(tuples: seq<seq<nat>>, tail: string, k: nat)
    requires |tuples| >= 2 && forall i :: 0 <= i < |tuples| ==> |tuples[i]| >= 1
    requires '$' !in tail && |ClausePieces(tuples[..|tuples| - 1], ", (")| <= k < |Flatten(tuples)|
    ensures k < |ClausePieces(tuples, tail)|
    ensures NumberedPiece(ClausePieces(tuples, tail)[k], Flatten(tuples)[k])
  {
    var n := |tuples|;
    var prefix := tuples[..n - 1];
    var m := |ClausePieces(prefix, ", (")|;
    ClausePiecesLength(prefix, ", (");
    FlattenLast(tuples);
    ClausePiecesLast(tuples, tail);
    TuplePieceNumbered(tuples[n - 1], ")" + tail, k - m);
    NumberedPieceMoved(TuplePieces(tuples[n - 1], ")" + tail)[k - m], tuples[n - 1][k - m],
                       ClausePieces(tuples, tail)[k], Flatten(tuples)[k]);
  }

  /**
   * The `VALUES` clause of `n` rows of width `w` names `$1`, `$2`, ... `$(n * w)` in
   * order: it opens with `(`, and the text after its `k`-th `$` reads as the number `k`.
   */
  lemma PlaceholdersNumbered(n: nat, w: nat)
    requires n >= 1 && w >= 1
    ensures var parts := Split(PlaceholderText(RefTuples(n, w)), '$');
            |parts| == n * w + 1 && parts[0] == "(" &&
            forall k :: 1 <= k <= n * w ==> ParseInt(parts[k]) == Some(k)
  {
    var tuples := RefTuples(n, w);
    var pieces := ClausePieces(tuples, "");
    var all := ["("] + pieces;
    var text := PlaceholderText(tuples);
    assert |Flatten(tuples)| == n * w by { RefTuplesAscending(n, w); }
    ClausePiecesLength(tuples, "");
    assert text == Join(all, "$") by {
      PlaceholderPieces(tuples, "");
      assert text + "" == text;
    }
    forall i | 0 <= i < |all| ensures '$' !in all[i] {
      if i > 0 {
        assert all[i] == pieces[i - 1];
        ClausePieceNumbered(tuples, "", i - 1);
      }
    }
    assert Split(text, '$') == all by {
      assert "$" == ['$'];
      SplitJoin(all, '$');
    }
    forall k | 1 <= k <= n * w ensures ParseInt(all[k]) == Some(k) {
      assert all[k] == pieces[k - 1];
      assert Flatten(tuples)[k - 1] == k by { RefTuplesAscending(n, w); }
      ClausePieceNumbered(tuples, "", k - 1);
      NumberedPieceParses(pieces[k - 1], k);
    }
  }

  // ------------------------------------------------------------ arithmetic

  lemma MulStep(i: nat, n: nat, w: nat)
    requires i < n
    ensures i * w + w <= n * w
  {
    assert i * w + w == (i + 1) * w;
    MulMono(i + 1, n, w);
  }

  lemma {:induction false} MulMono(a: nat, b: nat, w: nat)
    requires a <= b
    ensures a * w <= b * w
    decreases b - a
  {
    if a < b {
      MulMono(a + 1, b, w);
      assert (a + 1) * w == a * w + w;
    }
  }

  // ---------------------------------------------------- parameter layout

  /** Entry `i * w + j` of the parameter list is column `j` of record `i`, `NULL` when empty or absent. */
  lemma {:induction false} ParametersAt(data: seq<Record>, cols: seq<string>, i: nat, j: nat)
    requires i < |data| && j < |cols|
    ensures i * |cols| + j < |Parameters(data, cols)|
    ensures Parameters(data, cols)[i * |cols| + j] == Cell(data[i], cols[j])
  {
    var n, w := |data|, |cols|;
    var prefix := data[..n - 1];
    MulStep(i, n, w);
    if i < n - 1 {
      MulStep(i, n - 1, w);
      ParametersAt(prefix, cols, i, j);
      assert prefix[i] == data[i];
    } else {
      assert i * w + j - |Parameters(prefix, cols)| == j;
    }
  }

  /** A tuple of the clause is bound to the parameters of the record it stands for. */
  lemma BindTuple(data: seq<Record>, cols: seq<string>, i: nat)
    requires i < |data|
    ensures forall j :: 0 <= j < |cols| ==>
              1 <= TupleRefs(i, |cols|)[j] <= |Parameters(data, cols)| &&
              Parameters(data, cols)[TupleRefs(i, |cols|)[j] - 1] == Cell(data[i], cols[j])
  {
    forall j | 0 <= j < |cols|
      ensures 1 <= TupleRefs(i, |cols|)[j] <= |Parameters(data, cols)|
      ensures Parameters(data, cols)[TupleRefs(i, |cols|)[j] - 1] == Cell(data[i], cols[j])
    {
      ParametersAt(data, cols, i, j);
    }
  }

  /** The clause numbers the parameters `$1` to `$(n * w)`, each once, in ascending order. */
  lemma {:induction false} RefTuplesAscending(n: nat, w: nat)
    ensures Flatten(RefTuples(n, w)) == seq(n * w, k requires 0 <= k < n * w => k + 1)
  {
    if n > 0 {
      var prefix := RefTuples(n - 1, w);
      assert RefTuples(n, w) == prefix + [TupleRefs(n - 1, w)];
      FlattenSnoc(prefix, TupleRefs(n - 1, w));
      RefTuplesAscending(n - 1, w);
      assert (n - 1) * w + w == n * w;
    }
  }

  /** Concatenation of a sequence of sequences. */
  function Flatten<T>(xss: seq<seq<T>>): seq<T> {
    if xss == [] then [] else Flatten(xss[..|xss| - 1]) + xss[|xss| - 1]
  }

  lemma FlattenSnoc<T>(xss: seq<seq<T>>, xs: seq<T>)
    ensures Flatten(xss + [xs]) == Flatten(xss) + xs
  {
    assert (xss + [xs])[..|xss|] == xss;
  }

  // ----------------------------------------------------------- the database

  /** The contents of both tables: each maps a `data_hora` value to its row. */
  datatype Tables = Tables(zeus: map<string, Row>, elipse: map<string, Row>)

  function RowsOf(ts: Tables, t: Table): map<string, Row> {
    match t
    case ZeusTable => ts.zeus
    case ElipseTable => ts.elipse
  }

  function WithRows(ts: Tables, t: Table, m: map<string, Row>): (r: Tables)
    ensures RowsOf(r, t) == m
    ensures forall u :: u != t ==> RowsOf(r, u) == RowsOf(ts, u)
  {
    match t
    case ZeusTable => ts.(zeus := m)
    case ElipseTable => ts.(elipse := m)
  }

  /** Every parameter number of the clause names a supplied parameter. */
  predicate RefsInRange(st: Statement) {
    forall i, j :: 0 <= i < |st.tuples| && 0 <= j < |st.tuples[i]| ==> 1 <= st.tuples[i][j] <= |st.params|
  }

  /** The rows a statement's `VALUES` clause denotes; `None` when a number has no parameter. */
  function Bind(st: Statement): (r: Option<seq<Row>>)
    ensures r.Some? <==> RefsInRange(st)
    ensures r.Some? ==> |r.value| == |st.tuples|
    ensures r.Some? ==> forall i :: 0 <= i < |st.tuples| ==> |r.value[i]| == |st.tuples[i]|
    ensures r.Some? ==> forall i, j :: 0 <= i < |st.tuples| && 0 <= j < |st.tuples[i]| ==>
              r.value[i][j] == st.params[st.tuples[i][j] - 1]
  {
    if RefsInRange(st) then
      Some(seq(|st.tuples|, i requires 0 <= i < |st.tuples| =>
        seq(|st.tuples[i]|, j requires 0 <= j < |st.tuples[i]| => st.params[st.tuples[i][j] - 1])))
    else None
  }

  /** The conflict key of a row: its first column. */
  function KeyOf(row: Row): Value {
    if row == [] then None else row[0]
  }

  /** `ON CONFLICT (data_hora) DO NOTHING`, row by row: a row whose key is already present is skipped. */
  function InsertIgnore(m: map<string, Row>, rows: seq<Row>): (r: map<string, Row>)
    requires forall i :: 0 <= i < |rows| ==> KeyOf(rows[i]).Some?
    ensures m.Keys <= r.Keys
    ensures |r| <= |m| + |rows|
    decreases |rows|
  {
    if rows == [] then m
    else
      var key := KeyOf(rows[0]).value;
      InsertIgnore(if key in m then m else m[key := rows[0]], rows[1..])
  }

  function NotNullMessage(t: Table): string {
    "null" + " value in column \"data_hora\" of relation \"" + TableName(t) + "\" violates not-null constraint"
  }

  /**
   * A stand-in for the server's refusal of a statement that names a parameter it was not
   * given (the server's own text also gives the two counts). A built batch never gets it
   * (`BuiltRefsInRange`).
   */
  const BindMessage := "bind message supplies too few parameters"

  /**
   * What the server does with a statement: a connection or server failure (`fault`)
   * and a row without a key reject it whole; otherwise its rows are inserted in order,
   * skipping conflicts.
   */
  function Execute(ts: Tables, st: Statement, fault: Option<string>): (r: (Outcome<string>, Tables))
    ensures r.0.Fail? ==> r.1 == ts
    ensures r.0.Pass? <==> fault.None? && Bind(st).Some? &&
                           forall i :: 0 <= i < |Bind(st).value| ==> KeyOf(Bind(st).value[i]).Some?
  {
    if fault.Some? then (Fail(fault.value), ts)
    else match Bind(st)
      case None => (Fail(BindMessage), ts)
      case Some(rows) =>
        if exists i :: 0 <= i < |rows| && KeyOf(rows[i]).None? then (Fail(NotNullMessage(st.table)), ts)
        else (Pass, WithRows(ts, st.table, InsertIgnore(RowsOf(ts, st.table), rows)))
  }

  // --------------------------------------------------- ON CONFLICT DO NOTHING

  /** No existing row is ever overwritten. */
  lemma {:induction false} InsertIgnoreKeeps(m: map<string, Row>, rows: seq<Row>, key: string)
    requires forall i :: 0 <= i < |rows| ==> KeyOf(rows[i]).Some?
    requires key in m
    ensures key in InsertIgnore(m, rows) && InsertIgnore(m, rows)[key] == m[key]
    decreases |rows|
  {
    if rows != [] {
      var k0 := KeyOf(rows[0]).value;
      InsertIgnoreKeeps(if k0 in m then m else m[k0 := rows[0]], rows[1..], key);
    }
  }

  /** The keys afterwards are the keys before plus the keys of the batch. */
  lemma {:induction false} InsertIgnoreKeys(m: map<string, Row>, rows: seq<Row>, key: string)
    requires forall i :: 0 <= i < |rows| ==> KeyOf(rows[i]).Some?
    ensures key in InsertIgnore(m, rows) <==>
              key in m || exists i :: 0 <= i < |rows| && KeyOf(rows[i]) == Some(key)
    decreases |rows|
  {
    if rows != [] {
      var k0 := KeyOf(rows[0]).value;
      InsertIgnoreKeys(if k0 in m then m else m[k0 := rows[0]], rows[1..], key);
      if exists i :: 0 <= i < |rows| && KeyOf(rows[i]) == Some(key) {
        var i :| 0 <= i < |rows| && KeyOf(rows[i]) == Some(key);
        if i > 0 { assert KeyOf(rows[1..][i - 1]) == Some(key); }
      }
      if exists i :: 0 <= i < |rows[1..]| && KeyOf(rows[1..][i]) == Some(key) {
        var i :| 0 <= i < |rows[1..]| && KeyOf(rows[1..][i]) == Some(key);
        assert KeyOf(rows[i + 1]) == Some(key);
      }
    }
  }

  /** A new key holds the first row of the batch that carries it; later duplicates are skipped. */
  lemma {:induction false} InsertIgnoreFirstWins(m: map<string, Row>, rows: seq<Row>, i: nat)
    requires forall i :: 0 <= i < |rows| ==> KeyOf(rows[i]).Some?
    requires i < |rows| && KeyOf(rows[i]).value !in m
    requires forall h :: 0 <= h < i ==> KeyOf(rows[h]) != KeyOf(rows[i])
    ensures KeyOf(rows[i]).value in InsertIgnore(m, rows)
    ensures InsertIgnore(m, rows)[KeyOf(rows[i]).value] == rows[i]
    decreases |rows|
  {
    var k0 := KeyOf(rows[0]).value;
    var m' := if k0 in m then m else m[k0 := rows[0]];
    if i == 0 {
      InsertIgnoreKeeps(m', rows[1..], k0);
    } else {
      assert KeyOf(rows[i]) == KeyOf(rows[1..][i - 1]);
      InsertIgnoreFirstWins(m', rows[1..], i - 1);
    }
  }

  /** A batch whose keys are all present already changes nothing. */
  lemma {:induction false} InsertIgnorePresent(m: map<string, Row>, rows: seq<Row>)
    requires forall i :: 0 <= i < |rows| ==> KeyOf(rows[i]).Some? && KeyOf(rows[i]).value in m
    ensures InsertIgnore(m, rows) == m
  {
    if rows != [] {
      InsertIgnorePresent(m, rows[1..]);
    }
  }

  /** Inserting the same batch twice leaves the table as inserting it once. */
  lemma InsertIgnoreIdempotent(m: map<string, Row>, rows: seq<Row>)
    requires forall i :: 0 <= i < |rows| ==> KeyOf(rows[i]).Some?
    ensures InsertIgnore(InsertIgnore(m, rows), rows) == InsertIgnore(m, rows)
  {
    var once := InsertIgnore(m, rows);
    forall i | 0 <= i < |rows| ensures KeyOf(rows[i]).value in once {
      InsertIgnoreKeys(m, rows, KeyOf(rows[i]).value);
    }
    InsertIgnorePresent(once, rows);
  }

  /** Executing the same statement twice, without failures, leaves the tables as executing it once. */
  lemma ExecuteIdempotent(ts: Tables, st: Statement)
    ensures var (_, once) := Execute(ts, st, None); Execute(once, st, None).1 == once
  {
    var (r, once) := Execute(ts, st, None);
    if r.Pass? {
      var rows := Bind(st).value;
      InsertIgnoreIdempotent(RowsOf(ts, st.table), rows);
    }
  }

  // ------------------------------------------------------------ statements

  /** The statement built for a batch binds every tuple to the projection of its record. */
  lemma BindBatch(t: Table, data: seq<Record>)
    ensures Bind(BatchStatement(t, data)) == Some(seq(|data|, i requires 0 <= i < |data| => Projection(data[i], Columns(t))))
  {
    BindBuilt(t, Columns(t), data);
  }

  /** Every number in a built clause names a parameter. */
  lemma BuiltRefsInRange(t: Table, cols: seq<string>, data: seq<Record>)
    ensures RefsInRange(Insert(t, cols, RefTuples(|data|, |cols|), Parameters(data, cols)))
  {
    var st := Insert(t, cols, RefTuples(|data|, |cols|), Parameters(data, cols));
    forall i, j | 0 <= i < |data| && 0 <= j < |cols|
      ensures 1 <= st.tuples[i][j] <= |st.params|
    {
      BindTuple(data, cols, i);
    }
  }

  /** `BindBatch` for any column list. */
  lemma BindBuilt(t: Table, cols: seq<string>, data: seq<Record>)
    ensures Bind(Insert(t, cols, RefTuples(|data|, |cols|), Parameters(data, cols)))
              == Some(seq(|data|, i requires 0 <= i < |data| => Projection(data[i], cols)))
  {
    var st := Insert(t, cols, RefTuples(|data|, |cols|), Parameters(data, cols));
    BuiltRefsInRange(t, cols, data);
    var rows := Bind(st).value;
    assert |rows| == |data|;
    forall i | 0 <= i < |data| ensures rows[i] == Projection(data[i], cols) {
      BoundRow(t, cols, data, i);
    }
    assert rows == seq(|data|, i requires 0 <= i < |data| => Projection(data[i], cols));
  }

  /** Row `i` of a built clause binds to the projection of record `i`. */
  lemma BoundRow(t: Table, cols: seq<string>, data: seq<Record>, i: nat)
    requires i < |data|
    requires RefsInRange(Insert(t, cols, RefTuples(|data|, |cols|), Parameters(data, cols)))
    ensures Bind(Insert(t, cols, RefTuples(|data|, |cols|), Parameters(data, cols))).value[i]
              == Projection(data[i], cols)
  {
    var st := Insert(t, cols, RefTuples(|data|, |cols|), Parameters(data, cols));
    var row := Bind(st).value[i];
    assert |row| == |cols|;
    forall j | 0 <= j < |cols| ensures row[j] == Projection(data[i], cols)[j] {
      ParametersAt(data, cols, i, j);
      var k := i * |cols| + j;
      calc {
        row[j];
        st.params[st.tuples[i][j] - 1];
        { assert st.tuples[i][j] == k + 1; }
        st.params[k];
        Cell(data[i], cols[j]);
      }
    }
  }

  /** Without a server fault, a batch goes in exactly when every record carries a `data_hora`. */
  lemma BatchPasses(ts: Tables, t: Table, data: seq<Record>)
    ensures Execute(ts, BatchStatement(t, data), None).0.Pass? <==>
              forall i :: 0 <= i < |data| ==> "data_hora" in data[i] && data[i]["data_hora"] != ""
  {
    BindBatch(t, data);
    var rows := Bind(BatchStatement(t, data)).value;
    forall i | 0 <= i < |data|
      ensures KeyOf(rows[i]) == Cell(data[i], "data_hora")
    {
      assert rows[i] == Projection(data[i], Columns(t));
    }
  }

  /**
   * The server session: the table contents and the statements sent so far.
   */
  class Database {
    var tables: Tables
    var log: seq<Statement>

    constructor (initial: Tables)
      ensures tables == initial && log == []
    {
      tables := initial;
      log := [];
    }

    /** `query(sql, values)`: send one statement; `fault` is what the server or the connection does to it. */
    method Query(st: Statement, fault: Option<string>) returns (r: Outcome<string>)
      modifies this
      ensures (r, tables) == Execute(old(tables), st, fault)
      ensures log == old(log) + [st]
    {
      var (outcome, next) := Execute(tables, st, fault);
      r := outcome;
      tables := next;
      log := log + [st];
    }
  }

  // -------------------------------------------------------- the inserts

  /**
   * The loops of `insertZeusData` / `insertElipseData`: push `row[col] || null` for every
   * record and column, and number the placeholders `rowIndex * w + colIndex + 1`.
   */
  method BuildBatch(cols: seq<string>, data: seq<Record>) returns (values: seq<Value>, tuples: seq<seq<nat>>)
    ensures values == Parameters(data, cols)
    ensures tuples == RefTuples(|data|, |cols|)
  {
    var w := |cols|;
    values, tuples := [], [];
    var rowIndex := 0;
    while rowIndex < |data|
      invariant rowIndex <= |data|
      invariant values == Parameters(data[..rowIndex], cols)
      invariant tuples == RefTuples(rowIndex, w)
    {
      var row := data[rowIndex];
      var refs: seq<nat> := [];
      var colIndex := 0;
      while colIndex < w
        invariant colIndex <= w
        invariant values == Parameters(data[..rowIndex], cols) + Projection(row, cols[..colIndex])
        invariant refs == TupleRefs(rowIndex, w)[..colIndex]
      {
        assert Projection(row, cols[..colIndex + 1]) == Projection(row, cols[..colIndex]) + [Cell(row, cols[colIndex])];
        values := values + [Cell(row, cols[colIndex])];
        refs := refs + [rowIndex * w + colIndex + 1];
        colIndex := colIndex + 1;
      }
      assert cols[..w] == cols;
      assert TupleRefs(rowIndex, w)[..w] == TupleRefs(rowIndex, w);
      assert data[..rowIndex + 1][..rowIndex] == data[..rowIndex];
      assert RefTuples(rowIndex + 1, w) == RefTuples(rowIndex, w) + [TupleRefs(rowIndex, w)];
      tuples := tuples + [refs];
      rowIndex := rowIndex + 1;
    }
    assert data[..|data|] == data;
  }

  /**
   * `insertZeusData` (`t == ZeusTable`) and `insertElipseData` (`t == ElipseTable`): nothing
   * at all for an empty batch, otherwise exactly one statement for the whole batch.
   */
  method InsertBatch(db: Database, t: Table, data: seq<Record>, fault: Option<string>) returns (r: Outcome<string>)
    modifies db
    ensures data == [] ==> r == Pass && db.tables == old(db.tables) && db.log == old(db.log)
    ensures data != [] ==> (r, db.tables) == Execute(old(db.tables), BatchStatement(t, data), fault)
    ensures data != [] ==> db.log == old(db.log) + [BatchStatement(t, data)]
  {
    if |data| == 0 {
      return Pass;
    }
    var cols := Columns(t);
    var values, tuples := BuildBatch(cols, data);
    r := db.Query(Insert(t, cols, tuples, values), fault);
  }

  method InsertZeusData(db: Database, data: seq<Record>, fault: Option<string>) returns (r: Outcome<string>)
    modifies db
    ensures data == [] ==> r == Pass && db.tables == old(db.tables) && db.log == old(db.log)
    ensures data != [] ==> (r, db.tables) == Execute(old(db.tables), BatchStatement(ZeusTable, data), fault)
    ensures data != [] ==> db.log == old(db.log) + [BatchStatement(ZeusTable, data)]
  {
    r := InsertBatch(db, ZeusTable, data, fault);
  }

  method InsertElipseData(db: Database, data: seq<Record>, fault: Option<string>) returns (r: Outcome<string>)
    modifies db
    ensures data == [] ==> r == Pass && db.tables == old(db.tables) && db.log == old(db.log)
    ensures data != [] ==> (r, db.tables) == Execute(old(db.tables), BatchStatement(ElipseTable, data), fault)
    ensures data != [] ==> db.log == old(db.log) + [BatchStatement(ElipseTable, data)]
  {
    r := InsertBatch(db, ElipseTable, data, fault);
  }
}
