/** Merging of per-namespace prediction files (src/join.py).

    Each input file holds tab-separated (protein, term, score) lines for one
    namespace. `update_preds` folds a file into a nested, insertion-ordered
    dict protein -> namespace -> term -> score, keeping only scores above a
    threshold; the driver folds the C, F and P files into one dict and writes
    it out under a header row. Text-to-float conversion is the parameter
    `parseScore`. */
module Join {
  import opened Wrappers
  import opened Text
  import opened Dicts

  type Protein = string
  type Term = string
  type Ont = string

  type Scores = Dict<Term, real>
  type ByOnt = Dict<Ont, Scores>
  type Merged = Dict<Protein, ByOnt>

  /** Every level of the nested dict is a well-formed ordered dict. */
  ghost predicate ValidMerged(t: Merged) {
    t.Valid() && forall p :: p in t.items ==> ValidByOnt(t.items[p])
  }

  ghost predicate ValidByOnt(b: ByOnt) {
    b.Valid() && forall o :: o in b.items ==> b.items[o].Valid()
  }

  /** What makes `update_preds` stop. Line numbers count from 0. */
  datatype JoinError =
    | WrongFieldCount(line: nat)  // the three-name unpacking raises ValueError
    | BadScore(line: nat)         // `float(score)` raises ValueError

  /** `predict[p][o][g]`, if present. */
  function Lookup(t: Merged, p: Protein, o: Ont, g: Term): Option<real> {
    if p in t.items && o in t.items[p].items && g in t.items[p].items[o].items
    then Some(t.items[p].items[o].items[g]) else None
  }

  // ---------------------------------------------------------------------
  // update_preds (lines 19-28)

  /** Lines 23-26: an empty dict for `prot`, and in it for `ont`, when
      missing. */
  function Ensure(t: Merged, prot: Protein, ont: Ont): (r: Merged)
    ensures prot in r.items && ont in r.items[prot].items
  {
    var t1 := if prot in t.items then t else t.Put(prot, Empty());
    var byOnt := t1.items[prot];
    if ont in byOnt.items then t1 else t1.Put(prot, byOnt.Put(ont, Empty()))
  }

  /** Line 28: `predict[prot][ont][go] = v`. */
  function Store(t: Merged, prot: Protein, ont: Ont, go: Term, v: real): (r: Merged)
    requires prot in t.items && ont in t.items[prot].items
    ensures prot in r.items && ont in r.items[prot].items
  {
    var byOnt := t.items[prot];
    t.Put(prot, byOnt.Put(ont, byOnt.items[ont].Put(go, v)))
  }

  lemma PutProtein(t: Merged, prot: Protein, b: ByOnt)
    requires ValidMerged(t) && ValidByOnt(b)
    ensures ValidMerged(t.Put(prot, b))
  {
    var r := t.Put(prot, b);
    forall p | p in r.items ensures ValidByOnt(r.items[p]) {
      if p != prot {
        assert r.items[p] == t.items[p];
      }
    }
  }

  lemma PutOnt(b: ByOnt, ont: Ont, gos: Scores)
    requires ValidByOnt(b) && gos.Valid()
    ensures ValidByOnt(b.Put(ont, gos))
  {
    var r := b.Put(ont, gos);
    forall o | o in r.items ensures r.items[o].Valid() {
      if o != ont {
        assert r.items[o] == b.items[o];
      }
    }
  }

  /** Both updates keep every level of the dict well formed. */
  lemma EnsureStoreValid(t: Merged, prot: Protein, ont: Ont, go: Term, v: real)
    requires ValidMerged(t)
    ensures ValidMerged(Ensure(t, prot, ont))
    ensures ValidMerged(Store(Ensure(t, prot, ont), prot, ont, go, v))
  {
    var t1 := t;
    if prot !in t.items {
      PutProtein(t, prot, Empty());
      t1 := t.Put(prot, Empty());
    }
    var byOnt := t1.items[prot];
    var t2 := t1;
    if ont !in byOnt.items {
      PutOnt(byOnt, ont, Empty());
      PutProtein(t1, prot, byOnt.Put(ont, Empty()));
      t2 := t1.Put(prot, byOnt.Put(ont, Empty()));
    }
    assert t2 == Ensure(t, prot, ont);
    var b := t2.items[prot];
    PutOnt(b, ont, b.items[ont].Put(go, v));
    PutProtein(t2, prot, b.Put(ont, b.items[ont].Put(go, v)));
  }

  /** Creating the sub-dicts changes no score. */
  lemma EnsureScores(t: Merged, prot: Protein, ont: Ont, p: Protein, o: Ont, g: Term)
    ensures Lookup(Ensure(t, prot, ont), p, o, g) == Lookup(t, p, o, g)
  {
  }

  /** Storing changes exactly the one score. */
  lemma StoreScores(t: Merged, prot: Protein, ont: Ont, go: Term, v: real, p: Protein, o: Ont, g: Term)
    requires prot in t.items && ont in t.items[prot].items
    ensures Lookup(Store(t, prot, ont, go, v), p, o, g) == if (p, o, g) == (prot, ont, go) then Some(v) else Lookup(t, p, o, g)
  {
  }

  /** Namespace keys all come from `onts`. */
  ghost predicate OntsWithin(t: Merged, onts: set<Ont>) {
    forall p, o :: p in t.items && o in t.items[p].items ==> o in onts
  }

  /** The namespace keys after creating the sub-dicts are the old ones and
      `ont`; storing adds none. */
  lemma EnsureStoreOnts(t: Merged, prot: Protein, ont: Ont, go: Term, v: real, onts: set<Ont>)
    requires OntsWithin(t, onts) && ont in onts
    ensures OntsWithin(Ensure(t, prot, ont), onts)
    ensures OntsWithin(Store(Ensure(t, prot, ont), prot, ont, go, v), onts)
  {
  }

  /** `line.strip().split('\t')`, the splitting of line 22. */
  function FieldSplitter(): string -> seq<string> {
    line => Split(Strip(line), '\t')
  }

  /** Every line of a file split by `split`. */
  function SplitAll(lines: seq<string>, split: string -> seq<string>): (rows: seq<seq<string>>)
    ensures |rows| == |lines|
  {
    if |lines| == 0 then [] else [split(lines[0])] + SplitAll(lines[1..], split)
  }

  lemma {:induction false} SplitAllAt(lines: seq<string>, split: string -> seq<string>, k: nat)
    requires k < |lines|
    ensures SplitAll(lines, split)[k] == split(lines[k])
    decreases k
  {
    if k > 0 {
      SplitAllAt(lines[1..], split, k - 1);
    }
  }

  /** The dict after a step, and the error that stopped the fold, if any. */
  datatype Outcome = Outcome(table: Merged, error: Option<JoinError>)

  /** One pass of the loop body for line `i`, split into `fields`. A
      malformed score fails after the sub-dicts were created. */
  function ApplyLine(t: Merged, fields: seq<string>, i: nat, ont: Ont, thr: real, parseScore: string -> Option<real>): Outcome {
    if |fields| != 3 then Outcome(t, Some(WrongFieldCount(i)))
    else
      var t1 := Ensure(t, fields[0], ont);
      match parseScore(fields[2])
      case None => Outcome(t1, Some(BadScore(i)))
      case Some(v) => Outcome(if v > thr then Store(t1, fields[0], ont, fields[1], v) else t1, None)
  }

  /** The dict after the first `n` lines, stopping at the first error. */
  function Updated(t: Merged, rows: seq<seq<string>>, ont: Ont, thr: real, parseScore: string -> Option<real>, n: nat): Outcome
    requires n <= |rows|
  {
    if n == 0 then Outcome(t, None)
    else
      var prev := Updated(t, rows, ont, thr, parseScore, n - 1);
      if prev.error.Some? then prev else ApplyLine(prev.table, rows[n - 1], n - 1, ont, thr, parseScore)
  }

  /** The caller's dict that `update_preds` fills in place. */
  class Predictions {
    var table: Merged

    /** `preds = {}` */
    constructor()
      ensures table == Empty()
    {
      table := Empty();
    }

    /** `update_preds(predict, infile, ont, thr)` on the lines of `infile`,
        each split by `split` (the driver passes `FieldSplitter()`); on an
        error the dict keeps what the lines before it (and the failing line's
        sub-dict creation) put there. */
    method UpdatePreds(lines: seq<string>, split: string -> seq<string>, ont: Ont, thr: real,
                       parseScore: string -> Option<real>)
      returns (err: Option<JoinError>)
      modifies this
      ensures Outcome(table, err) == Updated(old(table), SplitAll(lines, split), ont, thr, parseScore, |lines|)
    {
      ghost var rows := SplitAll(lines, split);
      var i := 0;
      while i < |lines|
        invariant i <= |lines|
        invariant Updated(old(table), rows, ont, thr, parseScore, i).error.None?
        invariant Updated(old(table), rows, ont, thr, parseScore, i).table == table
      {
        UpdatedNext(old(table), rows, ont, thr, parseScore, i);
        var fields := split(lines[i]);
        SplitAllAt(lines, split, i);
        err := AddLine(fields, i, ont, thr, parseScore);
        if err.Some? {
          UpdatedErrSticks(old(table), rows, ont, thr, parseScore, i + 1, |lines|);
          return;
        }
        i := i + 1;
      }
      err := None;
    }

    /** The body of the loop for line `i`, already split into `fields`. */
    method AddLine(fields: seq<string>, i: nat, ont: Ont, thr: real, parseScore: string -> Option<real>)
      returns (err: Option<JoinError>)
      modifies this
      ensures Outcome(table, err) == ApplyLine(old(table), fields, i, ont, thr, parseScore)
    {
      if |fields| != 3 {
        return Some(WrongFieldCount(i));
      }
      var prot, go, score := fields[0], fields[1], fields[2];
      if prot !in table.items {
        table := table.Put(prot, Empty());
      }
      if ont !in table.items[prot].items {
        table := table.Put(prot, table.items[prot].Put(ont, Empty()));
      }
      assert table == Ensure(old(table), prot, ont);
      var v := parseScore(score);
      
      if v.None? {
        return Some(BadScore(i));
      }
      if v.value > thr {
        ghost var ensured := table;
        table := table.Put(prot, table.items[prot].Put(ont, table.items[prot].items[ont].Put(go, v.value)));
        assert table == Store(ensured, prot, ont, go, v.value);
      }
      err := None;
    }
  }

  /** Once the fold has failed, further lines change nothing. */
  lemma {:induction false} UpdatedErrSticks(t: Merged, rows: seq<seq<string>>, ont: Ont, thr: real,
                                            parseScore: string -> Option<real>, n: nat, m: nat)
    requires n <= m <= |rows| && Updated(t, rows, ont, thr, parseScore, n).error.Some?
    ensures Updated(t, rows, ont, thr, parseScore, m) == Updated(t, rows, ont, thr, parseScore, n)
    decreases m
  {
    if n < m {
      UpdatedErrSticks(t, rows, ont, thr, parseScore, n, m - 1);
    }
  }

  /** A fold that ends without error had no error one line earlier. */
  lemma UpdatedOkBefore(t: Merged, rows: seq<seq<string>>, ont: Ont, thr: real, parseScore: string -> Option<real>, n: nat)
    requires 0 < n <= |rows| && Updated(t, rows, ont, thr, parseScore, n).error.None?
    ensures Updated(t, rows, ont, thr, parseScore, n - 1).error.None?
  {
  }

  /** The fold takes one more line exactly as `ApplyLine` says. */
  lemma UpdatedNext(t: Merged, rows: seq<seq<string>>, ont: Ont, thr: real, parseScore: string -> Option<real>, i: nat)
    requires i < |rows| && Updated(t, rows, ont, thr, parseScore, i).error.None?
    ensures Updated(t, rows, ont, thr, parseScore, i + 1)
            == ApplyLine(Updated(t, rows, ont, thr, parseScore, i).table, rows[i], i, ont, thr, parseScore)
  {
  }

  // ---------------------------------------------------------------------
  // What one line does

  /** A line must split into exactly three fields, or the dict is left as it
      was; otherwise the protein's and namespace's sub-dicts exist afterwards
      whatever the score, and the line fails exactly when its score does not
      convert. */
  lemma ApplyLineShape(t: Merged, fields: seq<string>, i: nat, ont: Ont, thr: real, parseScore: string -> Option<real>)
    ensures var r := ApplyLine(t, fields, i, ont, thr, parseScore);
            && (|fields| != 3 <==> r == Outcome(t, Some(WrongFieldCount(i))))
            && (|fields| == 3 ==>
                  && fields[0] in r.table.items && ont in r.table.items[fields[0]].items
                  && (r.error.Some? <==> parseScore(fields[2]).None?)
                  && (r.error.Some? ==> r.error == Some(BadScore(i))))
  {
  }

  /** A line changes at most the score of its own (protein, namespace,
      term): that score becomes the line's when it is above the threshold,
      and stays what it was otherwise. */
  lemma ApplyLineScores(t: Merged, fields: seq<string>, i: nat, ont: Ont, thr: real, parseScore: string -> Option<real>,
                        p: Protein, o: Ont, g: Term)
    ensures var r := ApplyLine(t, fields, i, ont, thr, parseScore);
            if |fields| == 3 && (p, o, g) == (fields[0], ont, fields[1]) && parseScore(fields[2]).Some?
               && parseScore(fields[2]).value > thr
            then Lookup(r.table, p, o, g) == parseScore(fields[2])
            else Lookup(r.table, p, o, g) == Lookup(t, p, o, g)
  {
    if |fields| == 3 {
      var t1 := Ensure(t, fields[0], ont);
      EnsureScores(t, fields[0], ont, p, o, g);
      if parseScore(fields[2]).Some? {
        StoreScores(t1, fields[0], ont, fields[1], parseScore(fields[2]).value, p, o, g);
      }
    }
  }

  // ---------------------------------------------------------------------
  // What a whole file does

  /** Every stored score is above `thr`. */
  ghost predicate AllAbove(t: Merged, thr: real) {
    forall p, o, g :: Lookup(t, p, o, g).Some? ==> Lookup(t, p, o, g).value > thr
  }

  /** The dict is well formed at every level, every stored score is above
      `thr`, and every namespace key is among `onts`. */
  ghost predicate Kept(t: Merged, thr: real, onts: set<Ont>) {
    ValidMerged(t) && AllAbove(t, thr) && OntsWithin(t, onts)
  }

  /** One line keeps the dict well formed, every stored score above the
      threshold, and adds no namespace but its own. */
  lemma ApplyLineKeeps(t: Merged, fields: seq<string>, i: nat, ont: Ont, thr: real, parseScore: string -> Option<real>,
                       onts: set<Ont>)
    requires Kept(t, thr, onts) && ont in onts
    ensures var r := ApplyLine(t, fields, i, ont, thr, parseScore).table;
            Kept(r, thr, onts)
  {
    var r := ApplyLine(t, fields, i, ont, thr, parseScore).table;
    forall p, o, g | Lookup(r, p, o, g).Some? ensures Lookup(r, p, o, g).value > thr {
      ApplyLineScores(t, fields, i, ont, thr, parseScore, p, o, g);
    }
    if |fields| == 3 {
      var v := if parseScore(fields[2]).Some? then parseScore(fields[2]).value else 0.0;
      EnsureStoreOnts(t, fields[0], ont, fields[1], v, onts);
      EnsureStoreValid(t, fields[0], ont, fields[1], v);
    }
  }

  /** A property of the dict that every line keeps holds after the whole
      file. */
  lemma {:induction false} UpdatedPreserves(t: Merged, rows: seq<seq<string>>, ont: Ont, thr: real,
                                            parseScore: string -> Option<real>, n: nat, P: Merged -> bool)
    requires n <= |rows| && P(t)
    requires forall u, k :: 0 <= k < |rows| && P(u) ==> P(ApplyLine(u, rows[k], k, ont, thr, parseScore).table)
    ensures P(Updated(t, rows, ont, thr, parseScore, n).table)
  {
    if n > 0 {
      UpdatedPreserves(t, rows, ont, thr, parseScore, n - 1, P);
    }
  }

  /** Folding a file keeps every stored score above the threshold, adds only
      its own namespace, and keeps the dict well formed. */
  lemma UpdatedKeeps(t: Merged, rows: seq<seq<string>>, ont: Ont, thr: real,
                     parseScore: string -> Option<real>, n: nat, onts: set<Ont>)
    requires n <= |rows| && Kept(t, thr, onts) && ont in onts
    ensures Kept(Updated(t, rows, ont, thr, parseScore, n).table, thr, onts)
  {
    var P := u => Kept(u, thr, onts);
    forall u, k | 0 <= k < |rows| && P(u) ensures P(ApplyLine(u, rows[k], k, ont, thr, parseScore).table) {
      ApplyLineKeeps(u, rows[k], k, ont, thr, parseScore, onts);
    }
    UpdatedPreserves(t, rows, ont, thr, parseScore, n, P);
  }

  /** Line `k` is well formed, names `(p, g)` and carries a score above the
      threshold. */
  predicate Stores(rows: seq<seq<string>>, k: nat, thr: real, parseScore: string -> Option<real>, p: Protein, g: Term) {
    k < |rows| && |rows[k]| == 3 && rows[k][0] == p && rows[k][1] == g
    && parseScore(rows[k][2]).Some? && parseScore(rows[k][2]).value > thr
  }

  /** The last of the first `n` lines that stores `(p, g)`, if any. */
  function LastStore(rows: seq<seq<string>>, n: nat, thr: real, parseScore: string -> Option<real>, p: Protein, g: Term)
    : (r: Option<nat>)
    requires n <= |rows|
    ensures r.Some? ==> r.value < n && Stores(rows, r.value, thr, parseScore, p, g)
                        && forall k :: r.value < k < n ==> !Stores(rows, k, thr, parseScore, p, g)
    ensures r.None? ==> forall k :: 0 <= k < n ==> !Stores(rows, k, thr, parseScore, p, g)
  {
    if n == 0 then None
    else if Stores(rows, n - 1, thr, parseScore, p, g) then Some(n - 1)
    else LastStore(rows, n - 1, thr, parseScore, p, g)
  }

  /** A property of the dict and the number of lines read so far that
      every line keeps holds after a file that folds without error. */
  lemma {:induction false} UpdatedInvariant(t: Merged, rows: seq<seq<string>>, ont: Ont, thr: real,
                                            parseScore: string -> Option<real>, n: nat, Inv: (Merged, nat) -> bool)
    requires n <= |rows| && Inv(t, 0) && Updated(t, rows, ont, thr, parseScore, n).error.None?
    requires forall u, k :: 0 <= k < |rows| && Inv(u, k) ==> Inv(ApplyLine(u, rows[k], k, ont, thr, parseScore).table, k + 1)
    ensures Inv(Updated(t, rows, ont, thr, parseScore, n).table, n)
  {
    if n > 0 {
      UpdatedOkBefore(t, rows, ont, thr, parseScore, n);
      UpdatedInvariant(t, rows, ont, thr, parseScore, n - 1, Inv);
      UpdatedNext(t, rows, ont, thr, parseScore, n - 1);
    }
  }

  /** The score of `(p, ont, g)` after the first `n` lines: that of the last
      line storing it, or the earlier one when no line does. */
  ghost predicate LastWins(t: Merged, u: Merged, rows: seq<seq<string>>, ont: Ont, thr: real,
                           parseScore: string -> Option<real>, n: nat, p: Protein, g: Term)
  {
    n <= |rows| &&
    Lookup(u, p, ont, g) == match LastStore(rows, n, thr, parseScore, p, g)
      case None => Lookup(t, p, ont, g)
      case Some(k) => parseScore(rows[k][2])
  }

  /** After a file that folds without error, the score of `(p, ont, g)` is
      that of the last line storing it, or the earlier one when no line
      does: a later above-threshold line overwrites, a below-threshold line
      leaves the score in place. */
  lemma UpdatedLastWins(t: Merged, rows: seq<seq<string>>, ont: Ont, thr: real,
                        parseScore: string -> Option<real>, n: nat, p: Protein, g: Term)
    requires n <= |rows| && Updated(t, rows, ont, thr, parseScore, n).error.None?
    ensures var r := Updated(t, rows, ont, thr, parseScore, n).table;
            Lookup(r, p, ont, g) == match LastStore(rows, n, thr, parseScore, p, g)
              case None => Lookup(t, p, ont, g)
              case Some(k) => parseScore(rows[k][2])
  {
    var Inv := (u: Merged, k: nat) => LastWins(t, u, rows, ont, thr, parseScore, k, p, g);
    forall u, k | 0 <= k < |rows| && Inv(u, k) ensures Inv(ApplyLine(u, rows[k], k, ont, thr, parseScore).table, k + 1) {
      ApplyLineScores(u, rows[k], k, ont, thr, parseScore, p, ont, g);
    }
    UpdatedInvariant(t, rows, ont, thr, parseScore, n, Inv);
  }

  // ---------------------------------------------------------------------
  // The driver (lines 39-58)

  /** The written header row. */
  const Header: seq<string> := ["Query_ID", "GO_ID", "Ontology", "Score"]

  /** A written line: the header, or one (protein, term, namespace, score)
      row. */
  datatype OutLine = Columns(names: seq<string>) | Prediction(prot: Protein, go: Term, ont: Ont, score: real)

  /** The rows for the first `k` terms of one (protein, namespace). */
  function TermLines(prot: Protein, ont: Ont, gos: Scores, k: nat): seq<OutLine>
    requires gos.Valid() && k <= |gos.keys|
  {
    if k == 0 then []
    else TermLines(prot, ont, gos, k - 1) + [Prediction(prot, gos.keys[k - 1], ont, gos.items[gos.keys[k - 1]])]
  }

  /** The rows for the first `j` namespaces of one protein. */
  function OntLines(prot: Protein, onts: ByOnt, j: nat): seq<OutLine>
    requires onts.Valid() && (forall o :: o in onts.items ==> onts.items[o].Valid()) && j <= |onts.keys|
  {
    if j == 0 then []
    else
      var gos := onts.items[onts.keys[j - 1]];
      OntLines(prot, onts, j - 1) + TermLines(prot, onts.keys[j - 1], gos, |gos.keys|)
  }

  /** The rows for the first `i` proteins. */
  function LinesUpTo(t: Merged, i: nat): seq<OutLine>
    requires ValidMerged(t) && i <= |t.keys|
  {
    if i == 0 then []
    else
      var onts := t.items[t.keys[i - 1]];
      LinesUpTo(t, i - 1) + OntLines(t.keys[i - 1], onts, |onts.keys|)
  }

  /** The innermost loop of lines 57-58: the terms of one (protein,
      namespace), in insertion order. */
  method WriteTerms(prot: Protein, ont: Ont, gos: Scores) returns (rows: seq<OutLine>)
    requires gos.Valid()
    ensures rows == TermLines(prot, ont, gos, |gos.keys|)
  {
    rows := [];
    var k := 0;
    while k < |gos.keys|
      invariant k <= |gos.keys|
      invariant rows == TermLines(prot, ont, gos, k)
    {
      rows := rows + [Prediction(prot, gos.keys[k], ont, gos.items[gos.keys[k]])];
      k := k + 1;
    }
  }

  /** The middle loop of line 56: the namespaces of one protein, in
      insertion order. */
  method WriteOnts(prot: Protein, onts: ByOnt) returns (rows: seq<OutLine>)
    requires ValidByOnt(onts)
    ensures rows == OntLines(prot, onts, |onts.keys|)
  {
    rows := [];
    var j := 0;
    while j < |onts.keys|
      invariant j <= |onts.keys|
      invariant rows == OntLines(prot, onts, j)
    {
      var ont := onts.keys[j];
      var more := WriteTerms(prot, ont, onts.items[ont]);
      rows := rows + more;
      j := j + 1;
    }
  }

  /** Lines 54-58: the header row, then the proteins in insertion order. */
  method Dump(t: Merged) returns (out: seq<OutLine>)
    requires ValidMerged(t)
    ensures out == [Columns(Header)] + LinesUpTo(t, |t.keys|)
  {
    var rows := [];
    var i := 0;
    while i < |t.keys|
      invariant i <= |t.keys|
      invariant rows == LinesUpTo(t, i)
    {
      var prot := t.keys[i];
      var more := WriteOnts(prot, t.items[prot]);
      rows := rows + more;
      i := i + 1;
    }
    out := [Columns(Header)] + rows;
  }

  /** One `if file: update_preds(...)` step of the driver. */
  function Fold(acc: Result<Merged, JoinError>, file: Option<seq<string>>, ont: Ont,
                thr: real, parseScore: string -> Option<real>): Result<Merged, JoinError>
  {
    match acc
    case Err(e) => Err(e)
    case Ok(t) =>
      match file
      case None => Ok(t)
      case Some(lines) =>
        var r := Updated(t, SplitAll(lines, FieldSplitter()), ont, thr, parseScore, |lines|);
        if r.error.Some? then Err(r.error.value) else Ok(r.table)
  }

  /** The three optional input files, folded in the order C, F, P into an
      initially empty dict. */
  function Merge(cco: Option<seq<string>>, mfo: Option<seq<string>>, bpo: Option<seq<string>>,
                 thr: real, parseScore: string -> Option<real>): Result<Merged, JoinError>
  {
    Fold(Fold(Fold(Ok(Empty()), cco, "C", thr, parseScore), mfo, "F", thr, parseScore), bpo, "P", thr, parseScore)
  }

  /** `if file: update_preds(preds, file, ont, thr)` on the caller's dict. */
  method LoadFile(preds: Predictions, file: Option<seq<string>>, ont: Ont, thr: real, parseScore: string -> Option<real>)
    returns (err: Option<JoinError>)
    modifies preds
    ensures err.None? <==> Fold(Ok(old(preds.table)), file, ont, thr, parseScore).Ok?
    ensures err.None? ==> Fold(Ok(old(preds.table)), file, ont, thr, parseScore) == Ok(preds.table)
    ensures err.Some? ==> Fold(Ok(old(preds.table)), file, ont, thr, parseScore) == Err(err.value)
  {
    err := None;
    if file.Some? {
      err := preds.UpdatePreds(file.value, FieldSplitter(), ont, thr, parseScore);
    }
  }

  /** The driver: a file that is not given is skipped; an error in any file
      ends the run before anything is written. */
  method JoinFiles(cco: Option<seq<string>>, mfo: Option<seq<string>>, bpo: Option<seq<string>>,
                   thr: real, parseScore: string -> Option<real>)
    returns (r: Result<seq<OutLine>, JoinError>)
    ensures Merge(cco, mfo, bpo, thr, parseScore).Err? ==> r == Err(Merge(cco, mfo, bpo, thr, parseScore).error)
    ensures Merge(cco, mfo, bpo, thr, parseScore).Ok? ==>
              var t := Merge(cco, mfo, bpo, thr, parseScore).value;
              ValidMerged(t) && r == Ok([Columns(Header)] + LinesUpTo(t, |t.keys|))
  {
    var preds := new Predictions();
    var err := LoadFile(preds, cco, "C", thr, parseScore);
    if err.Some? {
      return Err(err.value);
    }
    err := LoadFile(preds, mfo, "F", thr, parseScore);
    if err.Some? {
      return Err(err.value);
    }
    err := LoadFile(preds, bpo, "P", thr, parseScore);
    if err.Some? {
      return Err(err.value);
    }
    MergeKeeps(cco, mfo, bpo, thr, parseScore);
    var out := Dump(preds.table);
    r := Ok(out);
  }

  /** One driver step keeps the dict well formed, every stored score above
      the threshold, and namespace keys within `onts`. */
  lemma FoldKeeps(acc: Result<Merged, JoinError>, file: Option<seq<string>>, ont: Ont,
                  thr: real, parseScore: string -> Option<real>, onts: set<Ont>)
    requires acc.Ok? ==> Kept(acc.value, thr, onts)
    requires ont in onts
    ensures var r := Fold(acc, file, ont, thr, parseScore);
            r.Ok? ==> Kept(r.value, thr, onts)
  {
    if acc.Ok? && file.Some? {
      var lines := file.value;
      var rows := SplitAll(lines, FieldSplitter());
      UpdatedKeeps(acc.value, rows, ont, thr, parseScore, |lines|, onts);
      var u := Updated(acc.value, rows, ont, thr, parseScore, |lines|);
      assert Fold(acc, file, ont, thr, parseScore) == if u.error.Some? then Err(u.error.value) else Ok(u.table);
    }
  }

  /** The merged dict is well formed, holds only scores above the threshold,
      and only the namespaces C, F and P. */
  lemma MergeKeeps(cco: Option<seq<string>>, mfo: Option<seq<string>>, bpo: Option<seq<string>>,
                   thr: real, parseScore: string -> Option<real>)
    ensures var m := Merge(cco, mfo, bpo, thr, parseScore);
            m.Ok? ==> Kept(m.value, thr, {"C", "F", "P"})
  {
    var onts := {"C", "F", "P"};
    var c := Fold(Ok(Empty()), cco, "C", thr, parseScore);
    var f := Fold(c, mfo, "F", thr, parseScore);
    FoldKeeps(Ok(Empty()), cco, "C", thr, parseScore, onts);
    FoldKeeps(c, mfo, "F", thr, parseScore, onts);
    FoldKeeps(f, bpo, "P", thr, parseScore, onts);
  }

  /** The rows of one (protein, namespace) are its first `k` terms with
      their scores. */
  lemma {:induction false} TermLinesMembers(prot: Protein, ont: Ont, gos: Scores, k: nat)
    requires gos.Valid() && k <= |gos.keys|
    ensures forall l :: l in TermLines(prot, ont, gos, k) <==>
              l.Prediction? && l.prot == prot && l.ont == ont && l.go in gos.keys[..k] && l.score == gos.items[l.go]
  {
    if k > 0 {
      TermLinesMembers(prot, ont, gos, k - 1);
      assert gos.keys[..k] == gos.keys[..k - 1] + [gos.keys[k - 1]];
    }
  }

  lemma TermLinesShape(prot: Protein, ont: Ont, gos: Scores, k: nat)
    requires gos.Valid() && k <= |gos.keys|
    ensures forall l :: l in TermLines(prot, ont, gos, k) ==> l.Prediction? && l.ont == ont && l.go in gos.keys[..k]
  {
    TermLinesMembers(prot, ont, gos, k);
  }

  lemma OntLinesShape(prot: Protein, onts: ByOnt, j: nat)
    requires ValidByOnt(onts) && j <= |onts.keys|
    ensures forall l :: l in OntLines(prot, onts, j) ==> l.Prediction? && l.prot == prot && l.ont in onts.keys[..j]
  {
    OntLinesMembers(prot, onts, j);
  }

  lemma LinesUpToShape(t: Merged, i: nat)
    requires ValidMerged(t) && i <= |t.keys|
    ensures forall l :: l in LinesUpTo(t, i) ==> l.Prediction? && l.prot in t.keys[..i]
  {
    LinesUpToMembers(t, i);
  }

  /** ... and there is one row per term. */
  lemma {:induction false} TermLinesDistinct(prot: Protein, ont: Ont, gos: Scores, k: nat)
    requires gos.Valid() && k <= |gos.keys|
    ensures Distinct(TermLines(prot, ont, gos, k))
  {
    if k > 0 {
      TermLinesDistinct(prot, ont, gos, k - 1);
      TermLinesShape(prot, ont, gos, k - 1);
      assert gos.keys[k - 1] !in gos.keys[..k - 1];
      var last := Prediction(prot, gos.keys[k - 1], ont, gos.items[gos.keys[k - 1]]);
      forall l | l in TermLines(prot, ont, gos, k - 1) ensures l !in [last] {
        assert l.go in gos.keys[..k - 1];
      }
      DistinctConcat(TermLines(prot, ont, gos, k - 1), [last]);
    }
  }

  /** The rows of one protein are its stored (namespace, term, score)
      entries for the first `j` namespaces. */
  lemma {:induction false} OntLinesMembers(prot: Protein, onts: ByOnt, j: nat)
    requires ValidByOnt(onts) && j <= |onts.keys|
    ensures forall l :: l in OntLines(prot, onts, j) <==>
              l.Prediction? && l.prot == prot && l.ont in onts.keys[..j] && l.go in onts.items[l.ont].items
              && l.score == onts.items[l.ont].items[l.go]
  {
    if j > 0 {
      OntLinesMembers(prot, onts, j - 1);
      var ont := onts.keys[j - 1];
      var gos := onts.items[ont];
      assert onts.keys[..j] == onts.keys[..j - 1] + [ont];
      TermLinesMembers(prot, ont, gos, |gos.keys|);
      assert gos.keys[..|gos.keys|] == gos.keys;
    }
  }

  /** ... and there is one row per entry. */
  lemma {:induction false} OntLinesDistinct(prot: Protein, onts: ByOnt, j: nat)
    requires ValidByOnt(onts) && j <= |onts.keys|
    ensures Distinct(OntLines(prot, onts, j))
  {
    if j > 0 {
      OntLinesDistinct(prot, onts, j - 1);
      OntLinesShape(prot, onts, j - 1);
      var ont := onts.keys[j - 1];
      var gos := onts.items[ont];
      assert ont !in onts.keys[..j - 1];
      TermLinesDistinct(prot, ont, gos, |gos.keys|);
      TermLinesShape(prot, ont, gos, |gos.keys|);
      DistinctConcat(OntLines(prot, onts, j - 1), TermLines(prot, ont, gos, |gos.keys|));
    }
  }

  /** The rows of the first `i` proteins are their stored entries. */
  lemma {:induction false} LinesUpToMembers(t: Merged, i: nat)
    requires ValidMerged(t) && i <= |t.keys|
    ensures forall l :: l in LinesUpTo(t, i) <==>
              l.Prediction? && l.prot in t.keys[..i] && Lookup(t, l.prot, l.ont, l.go) == Some(l.score)
  {
    if i > 0 {
      LinesUpToMembers(t, i - 1);
      var prot := t.keys[i - 1];
      var onts := t.items[prot];
      assert t.keys[..i] == t.keys[..i - 1] + [prot];
      OntLinesMembers(prot, onts, |onts.keys|);
      assert onts.keys[..|onts.keys|] == onts.keys;
    }
  }

  /** ... and there is one row per entry. */
  lemma {:induction false} LinesUpToDistinct(t: Merged, i: nat)
    requires ValidMerged(t) && i <= |t.keys|
    ensures Distinct(LinesUpTo(t, i))
  {
    if i > 0 {
      LinesUpToDistinct(t, i - 1);
      LinesUpToShape(t, i - 1);
      var prot := t.keys[i - 1];
      var onts := t.items[prot];
      assert prot !in t.keys[..i - 1];
      OntLinesDistinct(prot, onts, |onts.keys|);
      OntLinesShape(prot, onts, |onts.keys|);
      DistinctConcat(LinesUpTo(t, i - 1), OntLines(prot, onts, |onts.keys|));
    }
  }

  /** After the header, the output of a dict holds every stored (protein,
      namespace, term, score) exactly once and nothing else; so every
      written score is above the threshold and every namespace among
      `onts`. */
  lemma DumpedRows(t: Merged, thr: real, onts: set<Ont>)
    requires Kept(t, thr, onts)
    ensures var rows := LinesUpTo(t, |t.keys|);
            && Distinct(rows)
            && (forall l :: l in rows <==> l.Prediction? && Lookup(t, l.prot, l.ont, l.go) == Some(l.score))
            && (forall l :: l in rows ==> l.score > thr && l.ont in onts)
  {
    LinesUpToMembers(t, |t.keys|);
    LinesUpToDistinct(t, |t.keys|);
    assert t.keys[..|t.keys|] == t.keys;
  }
}
