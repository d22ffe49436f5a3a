/** Score propagation over the ontology (src/propagate.py, `parse_prediction`).

    The input is a tab-separated table of (protein, term, namespace, score)
    rows. The rows are loaded into a per-protein, insertion-ordered dict of
    direct predictions; every direct prediction's score is then merged by
    `max` into each of the term's ancestors, walking a protein's direct terms
    in insertion order; finally every (protein, term) entry except the three
    namespace roots is written out with `:` replaced by `_` in the term.

    The ontology is the parameter `owl`: the ancestor set it gives for the
    underscored form of a term. Text-to-float conversion is the parameter
    `parseScore`. */
module Propagate {
  import opened Wrappers
  import opened Text
  import opened Dicts

  type Protein = string
  type Term = string

  /** `[score, ont]`: a score and the namespace code it was predicted for. */
  datatype Entry = Entry(score: real, ont: string)

  /** One data row of the input table. */
  datatype Row = Row(prot: Protein, go: Term, ont: string, score: real)

  /** One row of the output table, the term in its underscored form. */
  datatype OutRow = OutRow(prot: Protein, go: string, ont: string, score: real)

  /** What makes a run fail. Line numbers count from 0, as `enumerate` does. */
  datatype Error =
    | WrongFieldCount(line: nat)     // the four-name unpacking raises ValueError
    | BadScore(line: nat)            // `float(score)` raises ValueError
    | MissingAncestors(key: string)  // `go2anc[...]` raises KeyError

  /** `preds` and `prop`: protein -> term -> entry, both levels insertion-ordered. */
  type Table = Dict<Protein, Dict<Term, Entry>>

  ghost predicate ValidTable(t: Table) {
    t.Valid() && forall prot :: prot in t.items ==> t.items[prot].Valid()
  }

  /** The namespace roots, never written out. */
  const Roots: set<string> := {"GO_0005575", "GO_0008150", "GO_0003674"}

  /** `max([a, b])` */
  function Max(a: real, b: real): real {
    if a >= b then a else b
  }

  // ---------------------------------------------------------------------
  // Load (src/propagate.py:19-32)

  /** Lines starting with `Query` are header lines and are skipped. */
  predicate IsHeader(line: string) {
    StartsWith(line, "Query")
  }

  /** `prot, go, ont, score = line.strip().split('\t')` then `float(score)`.
      On success the four fields, joined back with tabs, are the stripped line. */
  function ParseRow(line: string, parseScore: string -> Option<real>, i: nat): (r: Result<Row, Error>)
    ensures r.Err? ==> r.error == WrongFieldCount(i) || r.error == BadScore(i)
  {
    var fields := Split(Strip(line), '\t');
    if |fields| != 4 then Err(WrongFieldCount(i))
    else match parseScore(fields[3])
      case None => Err(BadScore(i))
      case Some(score) =>
        Ok(Row(fields[0], fields[1], fields[2], score))
  }

  /** The row parser of the script, for a given text-to-float conversion. */
  function RowParser(parseScore: string -> Option<real>): (string, nat) -> Result<Row, Error> {
    (line: string, i: nat) => ParseRow(line, parseScore, i)
  }

  /** `preds[prot][go] = [score, ont]`, creating `preds[prot]` when absent. */
  function LoadRow(preds: Table, row: Row): Table {
    var inner := if row.prot in preds.items then preds.items[row.prot] else Empty();
    preds.Put(row.prot, inner.Put(row.go, Entry(row.score, row.ont)))
  }

  /** The table after the first `n` lines, or the error of the first bad line. */
  function Loaded(lines: seq<string>, parse: (string, nat) -> Result<Row, Error>, n: nat): (r: Result<Table, Error>)
    requires n <= |lines|
  {
    if n == 0 then Ok(Empty())
    else match Loaded(lines, parse, n - 1)
      case Err(e) => Err(e)
      case Ok(preds) =>
        if IsHeader(lines[n - 1]) then Ok(preds)
        else match parse(lines[n - 1], n - 1)
          case Err(e) => Err(e)
          case Ok(row) => Ok(LoadRow(preds, row))
  }

  /** Loading only ever builds well-formed dicts. */
  lemma {:induction false} LoadedValid(lines: seq<string>, parse: (string, nat) -> Result<Row, Error>, n: nat)
    requires n <= |lines| && Loaded(lines, parse, n).Ok?
    ensures ValidTable(Loaded(lines, parse, n).value)
  {
    if n > 0 {
      LoadedValid(lines, parse, n - 1);
    }
  }

  lemma LoadedErrSticks(lines: seq<string>, parse: (string, nat) -> Result<Row, Error>, n: nat, m: nat)
    requires n <= m <= |lines| && Loaded(lines, parse, n).Err?
    ensures Loaded(lines, parse, m) == Loaded(lines, parse, n)
    decreases m
  {
    if n < m { LoadedErrSticks(lines, parse, n, m - 1); }
  }

  lemma LoadedNext(lines: seq<string>, parse: (string, nat) -> Result<Row, Error>, i: nat)
    requires i < |lines| && Loaded(lines, parse, i).Ok?
    ensures Loaded(lines, parse, i + 1) ==
              if IsHeader(lines[i]) then Loaded(lines, parse, i)
              else match parse(lines[i], i)
                case Err(e) => Err(e)
                case Ok(row) => Ok(LoadRow(Loaded(lines, parse, i).value, row))
  {
  }

  /** Lines 30-32: `preds[prot] = {}` when the protein is new, then
      `preds[prot][go] = [score, ont]`. */
  method AddRow(preds: Table, row: Row) returns (next: Table)
    ensures next == LoadRow(preds, row)
  {
    next := preds;
    if row.prot !in next.items {
      next := next.Put(row.prot, Empty());
    }
    var updated := next.items[row.prot].Put(row.go, Entry(row.score, row.ont));
    if row.prot !in preds.items {
      PutTwice(preds, row.prot, Empty(), updated);
    }
    next := next.Put(row.prot, updated);
  }

  /** The loading loop of lines 19-32, `parse` standing for lines 26-28. */
  method Load(lines: seq<string>, parse: (string, nat) -> Result<Row, Error>) returns (r: Result<Table, Error>)
    ensures r == Loaded(lines, parse, |lines|)
  {
    var preds: Table := Empty();
    var i := 0;
    while i < |lines|
      invariant 0 <= i <= |lines|
      invariant Loaded(lines, parse, i) == Ok(preds)
    {
      var line := lines[i];
      LoadedNext(lines, parse, i);
      if !IsHeader(line) {
        var parsed := parse(line, i);
        match parsed
        case Err(e) =>
          LoadedErrSticks(lines, parse, i + 1, |lines|);
          return Err(e);
        case Ok(row) =>
          ghost var old_preds := preds;
          preds := AddRow(preds, row);
          assert Loaded(lines, parse, i + 1) == Ok(LoadRow(old_preds, row));
      } else {
        assert Loaded(lines, parse, i + 1) == Ok(preds);
      }
      i := i + 1;
    }
    return Ok(preds);
  }

  // ---------------------------------------------------------------------
  // Ancestor table (src/propagate.py:35-37)

  /** `go.replace(':', '_')` */
  function Underscored(go: Term): string {
    Replace(go, ':', '_')
  }

  /** `all_uniq_gos`: every term directly predicted for some protein. */
  function UniqueTerms(preds: Table): set<Term> {
    set prot, go | prot in preds.items && go in preds.items[prot].items :: go
  }

  /** `go2anc`: keyed by the term as read, holding the ontology's ancestors
      of its underscored form. */
  function AncestorTable(preds: Table, owl: string -> set<Term>): map<Term, set<Term>> {
    map go | go in UniqueTerms(preds) :: owl(Underscored(go))
  }

  /** Line 43 looks `go2anc` up under the underscored form. */
  predicate Resolvable(go2anc: map<Term, set<Term>>, go: Term) {
    Underscored(go) in go2anc
  }

  function AncestorsOf(go2anc: map<Term, set<Term>>, go: Term): set<Term> {
    if Resolvable(go2anc, go) then go2anc[Underscored(go)] else {}
  }

  // ---------------------------------------------------------------------
  // Propagation (src/propagate.py:38-52)

  /** The new entry of ancestor `anc` while term `go` is processed
      (lines 45-52); `prop` is the protein's closure so far. */
  function Raise(prop: map<Term, Entry>, gos: map<Term, Entry>, go: Term, anc: Term): Entry
    requires go in gos
  {
    if anc in prop then Entry(Max(prop[anc].score, gos[go].score), gos[go].ont)
    else if anc in gos then Entry(Max(gos[anc].score, gos[go].score), gos[go].ont)
    else gos[go]
  }

  /** One iteration of the loop at line 41: `go` gets its own entry back
      (line 42), then every ancestor is raised against that state. Distinct
      ancestors are distinct keys, so the order of the inner loop does not
      matter for the resulting mapping. */
  function Step(prop: map<Term, Entry>, gos: map<Term, Entry>, go: Term, ancestors: set<Term>): map<Term, Entry>
    requires go in gos
  {
    var seeded := prop[go := gos[go]];
    map k | k in seeded.Keys + ancestors :: if k in ancestors then Raise(seeded, gos, go, k) else seeded[k]
  }

  /** A protein's closure after its first `n` direct terms, or the KeyError
      of the first term whose underscored form is not a key of `go2anc`. */
  function Propagated(gos: Dict<Term, Entry>, go2anc: map<Term, set<Term>>, n: nat): Result<map<Term, Entry>, Error>
    requires gos.Valid() && n <= |gos.keys|
  {
    if n == 0 then Ok(map[])
    else match Propagated(gos, go2anc, n - 1)
      case Err(e) => Err(e)
      case Ok(prop) =>
        var go := gos.keys[n - 1];
        if !Resolvable(go2anc, go) then Err(MissingAncestors(Underscored(go)))
        else Ok(Step(prop, gos.items, go, go2anc[Underscored(go)]))
  }

  /** A protein's complete closure. */
  function Propagation(gos: Dict<Term, Entry>, go2anc: map<Term, set<Term>>): Result<map<Term, Entry>, Error>
    requires gos.Valid()
  {
    Propagated(gos, go2anc, |gos.keys|)
  }

  lemma PropagatedNext(gos: Dict<Term, Entry>, go2anc: map<Term, set<Term>>, i: nat)
    requires gos.Valid() && i < |gos.keys| && Propagated(gos, go2anc, i).Ok?
    ensures var go := gos.keys[i];
            Propagated(gos, go2anc, i + 1)
            == if Underscored(go) !in go2anc then Err(MissingAncestors(Underscored(go)))
               else Ok(Step(Propagated(gos, go2anc, i).value, gos.items, go, go2anc[Underscored(go)]))
  {
  }

  lemma PropagatedErrSticks(gos: Dict<Term, Entry>, go2anc: map<Term, set<Term>>, n: nat, m: nat)
    requires gos.Valid() && n <= m <= |gos.keys| && Propagated(gos, go2anc, n).Err?
    ensures Propagated(gos, go2anc, m) == Propagated(gos, go2anc, n)
    decreases m
  {
    if n < m { PropagatedErrSticks(gos, go2anc, n, m - 1); }
  }

  /** Lines 42-52 for one direct term `go`: its own entry, then the inner
      loop over its ancestors. */
  method ProcessTerm(prop: Dict<Term, Entry>, gos: map<Term, Entry>, go: Term, ancestors: set<Term>)
    returns (next: Dict<Term, Entry>)
    requires prop.Valid() && go in gos
    ensures next.Valid() && next.items == Step(prop.items, gos, go, ancestors)
  {
    PutValid(prop, go, gos[go]);
    next := prop.Put(go, gos[go]);
    ghost var seeded := next.items;
    var todo := ancestors;
    while todo != {}
      invariant next.Valid() && todo <= ancestors
      invariant forall k :: k in next.items <==> k in seeded || k in ancestors - todo
      invariant forall k :: k in next.items ==>
                  next.items[k] == if k in ancestors - todo then Raise(seeded, gos, go, k) else seeded[k]
      decreases todo
    {
      var anc :| anc in todo;
      assert Raise(next.items, gos, go, anc) == Raise(seeded, gos, go, anc);
      next := RaiseAncestor(next, gos, go, anc);
      todo := todo - {anc};
    }
    assert next.items == Step(prop.items, gos, go, ancestors);
  }

  /** Lines 50-52 for one ancestor `anc` of `go`. */
  method RaiseAncestor(prop: Dict<Term, Entry>, gos: map<Term, Entry>, go: Term, anc: Term)
    returns (next: Dict<Term, Entry>)
    requires prop.Valid() && go in gos
    ensures next.Valid() && next.items == prop.items[anc := Raise(prop.items, gos, go, anc)]
  {
    PutValid(prop, anc, Raise(prop.items, gos, go, anc));
    if anc in prop.items {
      next := prop.Put(anc, Entry(Max(prop.items[anc].score, gos[go].score), gos[go].ont));
    } else if anc in gos {
      next := prop.Put(anc, Entry(Max(gos[anc].score, gos[go].score), gos[go].ont));
    } else {
      next := prop.Put(anc, gos[go]);
    }
  }

  /** Lines 40-52 for one protein. */
  method PropagateProtein(gos: Dict<Term, Entry>, go2anc: map<Term, set<Term>>)
    returns (r: Result<Dict<Term, Entry>, Error>)
    requires gos.Valid()
    ensures r.Ok? <==> Propagation(gos, go2anc).Ok?
    ensures r.Ok? ==> r.value.Valid() && r.value.items == Propagation(gos, go2anc).value
    ensures r.Err? ==> Propagation(gos, go2anc) == Err(r.error)
  {
    var prop: Dict<Term, Entry> := Empty();
    var i := 0;
    while i < |gos.keys|
      invariant 0 <= i <= |gos.keys|
      invariant prop.Valid() && Propagated(gos, go2anc, i) == Ok(prop.items)
    {
      var go := gos.keys[i];
      var key := Underscored(go);
      PropagatedNext(gos, go2anc, i);
      if key !in go2anc {
        PropagatedErrSticks(gos, go2anc, i + 1, |gos.keys|);
        return Err(MissingAncestors(key));
      }
      prop := ProcessTerm(prop, gos.items, go, go2anc[key]);
      i := i + 1;
    }
    return Ok(prop);
  }

  /** `prop` holds, for every protein of `preds` and in the same order, that
      protein's closure computed from its own direct predictions only. */
  ghost predicate ClosureOf(prop: Table, preds: Table, go2anc: map<Term, set<Term>>)
    requires ValidTable(preds)
  {
    ValidTable(prop) && prop.keys == preds.keys
    && forall prot :: prot in prop.items ==> Propagation(preds.items[prot], go2anc) == Ok(prop.items[prot].items)
  }

  /** The loop at lines 38-52 over all proteins. */
  method PropagateAll(preds: Table, go2anc: map<Term, set<Term>>) returns (r: Result<Table, Error>)
    requires ValidTable(preds)
    ensures r.Ok? <==> forall prot :: prot in preds.items ==> Propagation(preds.items[prot], go2anc).Ok?
    ensures r.Ok? ==> ClosureOf(r.value, preds, go2anc)
    ensures r.Err? ==> exists prot :: prot in preds.items && Propagation(preds.items[prot], go2anc) == Err(r.error)
  {
    var prop: Table := Empty();
    var i := 0;
    while i < |preds.keys|
      invariant 0 <= i <= |preds.keys|
      invariant ValidTable(prop) && prop.keys == preds.keys[..i]
      invariant forall prot :: prot in prop.items ==>
                  prot in preds.items && Propagation(preds.items[prot], go2anc) == Ok(prop.items[prot].items)
    {
      var prot := preds.keys[i];
      var closure := PropagateProtein(preds.items[prot], go2anc);
      if closure.Err? {
        return Err(closure.error);
      }
      assert prot !in preds.keys[..i];
      prop := prop.Put(prot, closure.value);
      assert preds.keys[..i + 1] == preds.keys[..i] + [prot];
      i := i + 1;
    }
    assert preds.keys[..i] == preds.keys;
    assert forall prot :: prot in preds.items ==> prot in prop.items;
    return Ok(prop);
  }

  // ---------------------------------------------------------------------
  // Output (src/propagate.py:54-60)

  /** The (protein, term) pairs written for the first `j` terms of `prot`. */
  function TermsWritten(prot: Protein, gos: Dict<Term, Entry>, j: nat): (w: seq<(Protein, Term)>)
    requires gos.Valid() && j <= |gos.keys|
    ensures forall k :: 0 <= k < |w| ==> w[k].0 == prot && w[k].1 in gos.items && Underscored(w[k].1) !in Roots
  {
    if j == 0 then []
    else
      var go := gos.keys[j - 1];
      TermsWritten(prot, gos, j - 1) + if Underscored(go) in Roots then [] else [(prot, go)]
  }

  /** The (protein, term) pairs written for the first `i` proteins of `prop`:
      each is an entry of `prop` whose term is not a root. */
  function WrittenUpTo(prop: Table, i: nat): (w: seq<(Protein, Term)>)
    requires ValidTable(prop) && i <= |prop.keys|
    ensures forall k :: 0 <= k < |w| ==>
              w[k].0 in prop.items && w[k].1 in prop.items[w[k].0].items && Underscored(w[k].1) !in Roots
  {
    if i == 0 then []
    else
      var prot := prop.keys[i - 1];
      WrittenUpTo(prop, i - 1) + TermsWritten(prot, prop.items[prot], |prop.items[prot].keys|)
  }

  function Written(prop: Table): seq<(Protein, Term)>
    requires ValidTable(prop)
  {
    WrittenUpTo(prop, |prop.keys|)
  }

  /** The row written for an entry: the term underscored, then its
      namespace and score. */
  function MakeRow(prop: Table, w: (Protein, Term)): OutRow
    requires w.0 in prop.items && w.1 in prop.items[w.0].items
  {
    var e := prop.items[w.0].items[w.1];
    OutRow(w.0, Underscored(w.1), e.ont, e.score)
  }

  ghost predicate RowsOf(rows: seq<OutRow>, prop: Table, written: seq<(Protein, Term)>)
    requires forall k :: 0 <= k < |written| ==> written[k].0 in prop.items && written[k].1 in prop.items[written[k].0].items
  {
    |rows| == |written| && forall k :: 0 <= k < |rows| ==> rows[k] == MakeRow(prop, written[k])
  }

  /** The writing loop of lines 54-60. */
  method Write(prop: Table) returns (rows: seq<OutRow>)
    requires ValidTable(prop)
    ensures RowsOf(rows, prop, Written(prop))
  {
    rows := [];
    var i := 0;
    while i < |prop.keys|
      invariant 0 <= i <= |prop.keys|
      invariant RowsOf(rows, prop, WrittenUpTo(prop, i))
    {
      var prot := prop.keys[i];
      var gos := prop.items[prot];
      var j := 0;
      while j < |gos.keys|
        invariant 0 <= j <= |gos.keys|
        invariant RowsOf(rows, prop, WrittenUpTo(prop, i) + TermsWritten(prot, gos, j))
      {
        var go := gos.keys[j];
        var e := gos.items[go];
        var name := Underscored(go);
        if name !in Roots {
          rows := rows + [OutRow(prot, name, e.ont, e.score)];
        }
        j := j + 1;
      }
      i := i + 1;
    }
  }

  // ---------------------------------------------------------------------
  // The whole of `parse_prediction` (src/propagate.py:18-60)

  /** Loads, propagates and writes. The run fails with the first malformed
      line, or, when every line is well formed, with a KeyError of some
      protein's propagation; otherwise the rows are those of a closure table
      that holds, for every protein, the closure of its own predictions. */
  method ParsePrediction(lines: seq<string>, owl: string -> set<Term>, parseScore: string -> Option<real>)
    returns (r: Result<seq<OutRow>, Error>)
    ensures match Loaded(lines, RowParser(parseScore), |lines|)
      case Err(e) => r == Err(e)
      case Ok(preds) =>
        var go2anc := AncestorTable(preds, owl);
        && ValidTable(preds)
        && (r.Ok? <==> forall prot :: prot in preds.items ==> Propagation(preds.items[prot], go2anc).Ok?)
        && (r.Err? ==> exists prot :: prot in preds.items && Propagation(preds.items[prot], go2anc) == Err(r.error))
        && (r.Ok? ==> exists prop :: ClosureOf(prop, preds, go2anc) && RowsOf(r.value, prop, Written(prop)))
  {
    var loaded := Load(lines, RowParser(parseScore));
    if loaded.Err? {
      return Err(loaded.error);
    }
    var preds := loaded.value;
    LoadedValid(lines, RowParser(parseScore), |lines|);
    var go2anc := AncestorTable(preds, owl);
    var closure := PropagateAll(preds, go2anc);
    if closure.Err? {
      return Err(closure.error);
    }
    var rows := Write(closure.value);
    assert ClosureOf(closure.value, preds, go2anc) && RowsOf(rows, closure.value, Written(closure.value));
    return Ok(rows);
  }
}
