/** Reading the gold set of the retrieval evaluation (`load_gold_csv` in
    scripts/eval_retrieval.py). CSV tokenising is the `csv` library's and is
    not modelled: a row arrives as `csv.DictReader` yields it, a map from
    header name to field, where a field missing from a short row is `None`. */
module Gold {
  import opened Base
  import opened Text

  const QuestionKey: string := "question"
  const IdsKey: string := "relevant_chunk_ids"

  /** One labelled question and its gold set of relevant chunk ids. */
  datatype QueryCase = QueryCase(question: string, relevantIds: set<string>)

  type Row = map<string, Option<string>>

  /** What `load_gold_csv` raises. */
  datatype GoldError =
    | FileNotFound          // no file at the path
    | KeyError(key: string) // a column missing from the header
    | NoneHasNoStrip        // the question field missing from a short row
    | EmptyFile             // a file with a header and no rows

  /** A chunk id as it can come out of a gold field: non-empty, without
      surrounding whitespace and without ";". */
  predicate CleanId(x: string) {
    x != "" && Strip(x) == x && ';' !in x
  }

  /** The ids of one `relevant_chunk_ids` field: its ";"-separated pieces,
      each stripped, the empty ones dropped. */
  function ParseIds(field: string): (r: set<string>)
    ensures forall x :: x in r ==> CleanId(x)
  {
    var pieces := Split(field, ';');
    var r := set p | p in pieces && Strip(p) != "" :: Strip(p);
    PiecesAreClean(pieces, r);
    r
  }

  lemma PiecesAreClean(pieces: seq<string>, r: set<string>)
    requires forall p :: p in pieces ==> ';' !in p
    requires r == set p | p in pieces && Strip(p) != "" :: Strip(p)
    ensures forall x :: x in r ==> CleanId(x)
  {
    forall x | x in r ensures CleanId(x) {
      var p :| p in pieces && Strip(p) != "" && Strip(p) == x;
      StripIdempotent(p);
      StripIsPiece(p);
    }
  }

  /** A stripped piece holds no character its source does not. */
  lemma StripIsPiece(p: string)
    ensures forall c :: c in Strip(p) ==> c in p
  {
    var r := Strip(p);
    var i := StripOffset(p);
    forall c | c in r ensures c in p {
      var k :| 0 <= k < |r| && r[k] == c;
      assert p[i + k] == c;
    }
  }

  /** The parsing rule of a gold field: for any pieces free of ";", the
      field they make when joined by ";" yields each piece stripped, the
      pieces that strip to "" dropped. Clean ids therefore read back as
      exactly themselves. */
  lemma ParseJoinedIds(ids: seq<string>)
    requires |ids| > 0
    requires forall i :: 0 <= i < |ids| ==> ';' !in ids[i]
    ensures ParseIds(Join(ids, ";")) == set i | 0 <= i < |ids| && Strip(ids[i]) != "" :: Strip(ids[i])
    ensures (forall i :: 0 <= i < |ids| ==> CleanId(ids[i])) ==>
              ParseIds(Join(ids, ";")) == set i | 0 <= i < |ids| :: ids[i]
  {
    SplitJoin(ids, ';');
    var pieces := Split(Join(ids, ";"), ';');
    assert pieces == ids;
    var want := set i | 0 <= i < |ids| && Strip(ids[i]) != "" :: Strip(ids[i]);
    forall x ensures x in ParseIds(Join(ids, ";")) <==> x in want {
      if x in ParseIds(Join(ids, ";")) {
        var p :| p in ids && Strip(p) != "" && Strip(p) == x;
        var i :| 0 <= i < |ids| && ids[i] == p;
        assert Strip(ids[i]) == x;
      }
      if x in want {
        var i :| 0 <= i < |ids| && Strip(ids[i]) != "" && Strip(ids[i]) == x;
        assert ids[i] in pieces;
      }
    }
    if forall i :: 0 <= i < |ids| ==> CleanId(ids[i]) {
      forall x ensures x in want <==> x in ids {
        if x in ids {
          var i :| 0 <= i < |ids| && ids[i] == x;
          assert Strip(ids[i]) == x;
        }
      }
    }
  }

  /** Split undoes Join for pieces free of the separator. */
  lemma {:induction false} SplitJoin(ids: seq<string>, sep: char)
    requires |ids| > 0
    requires forall i :: 0 <= i < |ids| ==> sep !in ids[i]
    ensures Split(Join(ids, [sep]), sep) == ids
  {
    if |ids| == 1 {
      SplitNoSeparator(ids[0], sep);
    } else {
      SplitJoin(ids[1..], sep);
      SplitAfterPiece(ids[0], Join(ids[1..], [sep]), sep);
      assert [ids[0]] + ids[1..] == ids;
    }
  }

  lemma {:induction false} SplitNoSeparator(a: string, sep: char)
    requires sep !in a
    ensures Split(a, sep) == [a]
  {
    if |a| > 0 {
      assert sep !in a[1..] by {
        forall k | 0 <= k < |a[1..]| ensures a[1..][k] != sep {
          assert a[1..][k] == a[k + 1];
        }
      }
      SplitNoSeparator(a[1..], sep);
      assert [a[0]] + a[1..] == a;
    }
  }

  lemma {:induction false} SplitAfterPiece(a: string, t: string, sep: char)
    requires sep !in a
    ensures Split(a + [sep] + t, sep) == [a] + Split(t, sep)
  {
    if |a| == 0 {
      assert a + [sep] + t == [sep] + t;
      assert ([sep] + t)[1..] == t;
    } else {
      assert sep !in a[1..] by {
        forall k | 0 <= k < |a[1..]| ensures a[1..][k] != sep {
          assert a[1..][k] == a[k + 1];
        }
      }
      SplitAfterPiece(a[1..], t, sep);
      assert (a + [sep] + t)[1..] == a[1..] + [sep] + t;
      assert [a[0]] + a[1..] == a;
    }
  }

  /** A field that is empty, missing or only whitespace and separators gives
      the empty gold set. */
  lemma BlankFieldHasNoIds(field: string)
    requires forall k :: 0 <= k < |field| ==> IsSpace(field[k]) || field[k] == ';'
    ensures ParseIds(field) == {}
  {
    var pieces := Split(field, ';');
    forall p | p in pieces ensures Strip(p) == "" {
      BlankPiece(field, p);
    }
  }

  lemma BlankPiece(field: string, p: string)
    requires forall k :: 0 <= k < |field| ==> IsSpace(field[k]) || field[k] == ';'
    requires p in Split(field, ';')
    ensures Strip(p) == ""
  {
    JoinSplit(field, ';');
    PieceCharsInJoin(Split(field, ';'), p, ";");
    assert forall k :: 0 <= k < |p| ==> IsSpace(p[k]) by {
      forall k | 0 <= k < |p| ensures IsSpace(p[k]) {
        assert p[k] in Join(Split(field, ';'), ";");
        assert p[k] != ';';
      }
    }
  }

  lemma {:induction false} PieceCharsInJoin(items: seq<string>, p: string, sep: string)
    requires p in items
    ensures forall c :: c in p ==> c in Join(items, sep)
  {
    if |items| > 1 && p != items[0] {
      PieceCharsInJoin(items[1..], p, sep);
    }
  }

  /** One row of the loop of `load_gold_csv`: the ids field is read first
      (`None` read as ""), then the question, which is stripped. */
  function ParseRow(row: Row): (r: Result<QueryCase, GoldError>)
    ensures IdsKey !in row ==> r == Err(KeyError(IdsKey))
    ensures IdsKey in row && QuestionKey !in row ==> r == Err(KeyError(QuestionKey))
    ensures IdsKey in row && QuestionKey in row && row[QuestionKey].None? ==> r == Err(NoneHasNoStrip)
    ensures r.Ok? <==> IdsKey in row && QuestionKey in row && row[QuestionKey].Some?
    ensures r.Ok? ==> r.value.question == Strip(row[QuestionKey].value)
                      && r.value.relevantIds == ParseIds(row[IdsKey].GetOr(""))
  {
    if IdsKey !in row then Err(KeyError(IdsKey))
    else
      var ids := ParseIds(row[IdsKey].GetOr(""));
      if QuestionKey !in row then Err(KeyError(QuestionKey))
      else match row[QuestionKey]
        case None => Err(NoneHasNoStrip)
        case Some(q) => Ok(QueryCase(Strip(q), ids))
  }

  /** All rows parsed in order; the first failing row's error wins. */
  function ParseRows(rows: seq<Row>): (r: Result<seq<QueryCase>, GoldError>)
    ensures r.Ok? <==> forall i :: 0 <= i < |rows| ==> ParseRow(rows[i]).Ok?
    ensures r.Ok? ==> |r.value| == |rows|
                      && forall i :: 0 <= i < |rows| ==> r.value[i] == ParseRow(rows[i]).value
    ensures r.Err? ==> exists i :: 0 <= i < |rows| && ParseRow(rows[i]) == Err(r.error)
                                   && forall j :: 0 <= j < i ==> ParseRow(rows[j]).Ok?
  {
    if |rows| == 0 then Ok([])
    else
      match ParseRow(rows[0])
      case Err(e) => Err(e)
      case Ok(c) =>
        var rest := ParseRows(rows[1..]);
        assert forall i :: 0 < i < |rows| ==> rows[1..][i - 1] == rows[i];
        match rest
        case Err(e) =>
          assert exists i :: 0 <= i < |rows| && ParseRow(rows[i]) == Err(e)
                             && forall j :: 0 <= j < i ==> ParseRow(rows[j]).Ok? by {
            var i :| 0 <= i < |rows[1..]| && ParseRow(rows[1..][i]) == Err(e)
                     && forall j :: 0 <= j < i ==> ParseRow(rows[1..][j]).Ok?;
            assert ParseRow(rows[i + 1]) == Err(e);
            assert forall j :: 0 < j < i + 1 ==> ParseRow(rows[j]).Ok? by {
              forall j | 0 < j < i + 1 ensures ParseRow(rows[j]).Ok? {
                assert rows[j] == rows[1..][j - 1];
              }
            }
          }
          Err(e)
        case Ok(cs) => Ok([c] + cs)
  }

  /** `load_gold_csv`: `None` stands for a path with no file. A file
      without data rows is an error; otherwise there is one case per row,
      in file order. */
  function LoadGold(file: Option<seq<Row>>): (r: Result<seq<QueryCase>, GoldError>)
    ensures file.None? ==> r == Err(FileNotFound)
    ensures r.Ok? ==> file.Some? && |r.value| == |file.value| > 0
    ensures file.Some? && ParseRows(file.value).Ok? && |file.value| == 0 ==> r == Err(EmptyFile)
    ensures file.Some? && ParseRows(file.value).Ok? && |file.value| > 0 ==> r == ParseRows(file.value)
    ensures file.Some? && ParseRows(file.value).Err? ==> r == ParseRows(file.value)
  {
    match file
    case None => Err(FileNotFound)
    case Some(rows) =>
      match ParseRows(rows)
      case Err(e) => Err(e)
      case Ok(cases) => if |cases| == 0 then Err(EmptyFile) else Ok(cases)
  }
}
