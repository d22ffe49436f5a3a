/** What loading (src/propagate.py:19-32), the ancestor table (35-37) and
    writing (54-60) do, stated as properties of the functions of module
    Propagate. */
module PropagateRows {
  import opened Wrappers
  import opened Text
  import opened Dicts
  import opened Propagate

  // ---------------------------------------------------------------------
  // Parsing one row

  /** An accepted row has exactly four tab-free fields which, joined back
      with tabs, give the stripped line, and its score is the conversion of
      the fourth field. */
  lemma ParseRowFields(line: string, parseScore: string -> Option<real>, i: nat)
    requires ParseRow(line, parseScore, i).Ok?
    ensures var row := ParseRow(line, parseScore, i).value;
            && '\t' !in row.prot && '\t' !in row.go && '\t' !in row.ont
            && exists text :: '\t' !in text && Join([row.prot, row.go, row.ont, text], '\t') == Strip(line)
                              && parseScore(text) == Some(row.score)
  {
    var fields := Split(Strip(line), '\t');
    SplitJoin(Strip(line), '\t');
    SplitPartsLackSep(Strip(line), '\t');
    assert fields == [fields[0], fields[1], fields[2], fields[3]];
    assert '\t' !in fields[3];
  }

  /** Conversely, a line whose stripped text is four tab-free fields with a
      convertible last field is accepted as exactly that row. */
  lemma ParseRowAccepts(line: string, parseScore: string -> Option<real>, i: nat,
                        prot: string, go: string, ont: string, text: string, score: real)
    requires '\t' !in prot && '\t' !in go && '\t' !in ont && '\t' !in text
    requires Strip(line) == Join([prot, go, ont, text], '\t') && parseScore(text) == Some(score)
    ensures ParseRow(line, parseScore, i) == Ok(Row(prot, go, ont, score))
  {
    JoinSplit([prot, go, ont, text], '\t');
  }

  // ---------------------------------------------------------------------
  // Loading

  /** Line `i` is a data row that `parse` reads as a prediction of `go` for `prot`. */
  predicate RowFor(lines: seq<string>, parse: (string, nat) -> Result<Row, Error>, i: nat, prot: Protein, go: Term)
  {
    i < |lines| && !IsHeader(lines[i]) && parse(lines[i], i).Ok?
    && parse(lines[i], i).value.prot == prot && parse(lines[i], i).value.go == go
  }

  /** Loading succeeds exactly when every line is a header line or a row
      `parse` accepts; otherwise it fails with the error of the first line
      that is neither. */
  lemma {:induction false} LoadedOk(lines: seq<string>, parse: (string, nat) -> Result<Row, Error>, n: nat)
    requires n <= |lines|
    ensures Loaded(lines, parse, n).Ok? <==> forall i :: 0 <= i < n ==> IsHeader(lines[i]) || parse(lines[i], i).Ok?
    ensures Loaded(lines, parse, n).Err? ==>
              exists i :: 0 <= i < n && !IsHeader(lines[i]) && parse(lines[i], i) == Err(Loaded(lines, parse, n).error)
                          && forall j :: 0 <= j < i ==> IsHeader(lines[j]) || parse(lines[j], j).Ok?
  {
    if n > 0 {
      LoadedOk(lines, parse, n - 1);
    }
  }

  /** After loading, `preds[prot][go]` exists exactly when some data row
      names (prot, go), and holds the score and namespace of the LAST such
      row: a repeated row replaces the earlier value. */
  lemma {:induction false} LoadedEntries(lines: seq<string>, parse: (string, nat) -> Result<Row, Error>, n: nat,
                                         prot: Protein, go: Term)
    requires n <= |lines| && Loaded(lines, parse, n).Ok?
    ensures var preds := Loaded(lines, parse, n).value;
            (prot in preds.items && go in preds.items[prot].items) <==> exists i: nat :: i < n && RowFor(lines, parse, i, prot, go)
    ensures var preds := Loaded(lines, parse, n).value;
            prot in preds.items && go in preds.items[prot].items ==>
              exists i: nat :: i < n && RowFor(lines, parse, i, prot, go)
                          && preds.items[prot].items[go] == Entry(parse(lines[i], i).value.score, parse(lines[i], i).value.ont)
                          && forall j: nat :: i < j < n ==> !RowFor(lines, parse, j, prot, go)
  {
    if n > 0 {
      LoadedEntries(lines, parse, n - 1, prot, go);
      var before := Loaded(lines, parse, n - 1).value;
      var after := Loaded(lines, parse, n).value;
      if !IsHeader(lines[n - 1]) && RowFor(lines, parse, n - 1, prot, go) {
        var row := parse(lines[n - 1], n - 1).value;
        assert after == LoadRow(before, row);
        assert after.items[prot].items[go] == Entry(row.score, row.ont);
      } else {
        assert !RowFor(lines, parse, n - 1, prot, go);
        if !IsHeader(lines[n - 1]) {
          var row := parse(lines[n - 1], n - 1).value;
          assert after == LoadRow(before, row);
          assert prot in after.items && go in after.items[prot].items <==> prot in before.items && go in before.items[prot].items;
          if prot in before.items && go in before.items[prot].items {
            assert after.items[prot].items[go] == before.items[prot].items[go];
          }
        }
        assert (exists i: nat :: i < n && RowFor(lines, parse, i, prot, go)) <==> (exists i: nat :: i < n - 1 && RowFor(lines, parse, i, prot, go));
      }
    }
  }

  /** Keys are only ever appended: the protein order, and each protein's
      term order, after `n` lines is a prefix of the order after `m >= n`
      lines. A repeated row therefore keeps the position its term got from
      the first row that named it. */
  lemma {:induction false} LoadedKeysGrow(lines: seq<string>, parse: (string, nat) -> Result<Row, Error>, n: nat, m: nat)
    requires n <= m <= |lines| && Loaded(lines, parse, m).Ok?
    ensures Loaded(lines, parse, n).Ok?
    ensures var before := Loaded(lines, parse, n).value; var after := Loaded(lines, parse, m).value;
            && before.keys <= after.keys
            && forall prot :: prot in before.items ==>
                 prot in after.items && before.items[prot].keys <= after.items[prot].keys
  {
    if n < m {
      assert Loaded(lines, parse, m - 1).Ok?;
      LoadedKeysGrow(lines, parse, n, m - 1);
    }
  }

  // ---------------------------------------------------------------------
  // The ancestor table

  /** `go2anc[go.replace(':', '_')]` exists exactly when the underscored
      form of `go` is itself a predicted term; it then holds the ontology's
      ancestors of that underscored form. Only then is the lookup of line 43
      the ancestors of `go`. */
  lemma AncestorLookup(preds: Table, owl: string -> set<Term>, go: Term)
    ensures Resolvable(AncestorTable(preds, owl), go) <==> Underscored(go) in UniqueTerms(preds)
    ensures Resolvable(AncestorTable(preds, owl), go) ==>
              AncestorsOf(AncestorTable(preds, owl), go) == owl(Underscored(go))
  {
    ReplaceIdempotent(go, ':', '_');
  }

  /** When no predicted term contains `:`, every lookup of line 43 succeeds
      and yields the ontology's ancestors of the term itself. */
  lemma ColonFreeResolvable(preds: Table, owl: string -> set<Term>, prot: Protein, go: Term)
    requires forall p, g :: p in preds.items && g in preds.items[p].items ==> ':' !in g
    requires prot in preds.items && go in preds.items[prot].items
    ensures Resolvable(AncestorTable(preds, owl), go)
    ensures AncestorsOf(AncestorTable(preds, owl), go) == owl(go)
  {
    ReplaceAbsent(go, ':', '_');
    assert go in UniqueTerms(preds);
  }

  /** A term written with `:` whose underscored form is not predicted makes
      the lookup raise KeyError: the table is keyed by the raw form. */
  lemma ColonTermFails(owl: string -> set<Term>)
    ensures var gos := Dict(["GO:1"], map["GO:1" := Entry(0.5, "F")]);
            var preds := Dict(["P"], map["P" := gos]);
            && gos.Valid() && ValidTable(preds)
            && Propagation(gos, AncestorTable(preds, owl)) == Err(MissingAncestors("GO_1"))
  {
    var gos := Dict(["GO:1"], map["GO:1" := Entry(0.5, "F")]);
    var preds := Dict(["P"], map["P" := gos]);
    assert gos.keys[0] == "GO:1";
    assert Underscored("GO:1") == "GO_1";
    forall g | g in UniqueTerms(preds)
      ensures g == "GO:1"
    {
    }
    assert "GO_1" != "GO:1";
    assert !Resolvable(AncestorTable(preds, owl), "GO:1");
    assert Propagated(gos, AncestorTable(preds, owl), 0) == Ok(map[]);
  }

  // ---------------------------------------------------------------------
  // Writing

  lemma {:induction false} TermsWrittenOnce(prot: Protein, gos: Dict<Term, Entry>, j: nat)
    requires gos.Valid() && j <= |gos.keys|
    ensures Distinct(TermsWritten(prot, gos, j))
    ensures forall w :: w in TermsWritten(prot, gos, j) <==>
              w.0 == prot && w.1 in gos.keys[..j] && Underscored(w.1) !in Roots
  {
    if j > 0 {
      TermsWrittenOnce(prot, gos, j - 1);
      assert gos.keys[..j] == gos.keys[..j - 1] + [gos.keys[j - 1]];
      var go := gos.keys[j - 1];
      assert go !in gos.keys[..j - 1];
      var tail: seq<(Protein, Term)> := if Underscored(go) in Roots then [] else [(prot, go)];
      DistinctConcat(TermsWritten(prot, gos, j - 1), tail);
    }
  }

  lemma {:induction false} WrittenUpToOnce(prop: Table, i: nat)
    requires ValidTable(prop) && i <= |prop.keys|
    ensures Distinct(WrittenUpTo(prop, i))
    ensures forall w :: w in WrittenUpTo(prop, i) <==>
              w.0 in prop.keys[..i] && w.1 in prop.items[w.0].items && Underscored(w.1) !in Roots
  {
    if i > 0 {
      WrittenUpToOnce(prop, i - 1);
      var prot := prop.keys[i - 1];
      var gos := prop.items[prot];
      assert prop.keys[..i] == prop.keys[..i - 1] + [prot];
      assert prot !in prop.keys[..i - 1];
      TermsWrittenOnce(prot, gos, |gos.keys|);
      assert gos.keys[..|gos.keys|] == gos.keys;
      DistinctConcat(WrittenUpTo(prop, i - 1), TermsWritten(prot, gos, |gos.keys|));
    }
  }

  /** Every entry of the closure table whose underscored term is not a root
      is written exactly once, and nothing else is written. */
  lemma WrittenExactlyOnce(prop: Table)
    requires ValidTable(prop)
    ensures Distinct(Written(prop))
    ensures forall prot, go :: (prot, go) in Written(prop) <==>
              prot in prop.items && go in prop.items[prot].items && Underscored(go) !in Roots
  {
    WrittenUpToOnce(prop, |prop.keys|);
    assert prop.keys[..|prop.keys|] == prop.keys;
  }

  /** `row` is the output line of some entry of `prop`: its term is the
      entry's term in underscored form, and it carries the entry's
      namespace and score. */
  ghost predicate RowFromClosure(row: OutRow, prop: Table) {
    row.prot in prop.items
    && exists go :: go in prop.items[row.prot].items && row.go == Underscored(go)
                    && row.ont == prop.items[row.prot].items[go].ont
                    && row.score == prop.items[row.prot].items[go].score
  }

  /** The row written for one written pair. */
  lemma WrittenRow(prop: Table, w: (Protein, Term))
    requires ValidTable(prop) && w in Written(prop)
    ensures var row := MakeRow(prop, w);
            ':' !in row.go && row.go !in Roots && RowFromClosure(row, prop)
  {
    WrittenExactlyOnce(prop);
    var u := Underscored(w.1);
    forall c | 0 <= c < |u| ensures u[c] != ':' { }
  }

  /** Written terms are in underscored form and never a namespace root;
      each row comes from an entry of the closure table. */
  lemma RowsUnderscoredNoRoots(rows: seq<OutRow>, prop: Table)
    requires ValidTable(prop) && RowsOf(rows, prop, Written(prop))
    ensures forall k :: 0 <= k < |rows| ==>
              ':' !in rows[k].go && rows[k].go !in Roots && RowFromClosure(rows[k], prop)
  {
    var w := Written(prop);
    forall k | 0 <= k < |rows|
      ensures ':' !in rows[k].go && rows[k].go !in Roots && RowFromClosure(rows[k], prop)
    {
      assert w[k] in w;
      WrittenRow(prop, w[k]);
    }
  }
}
