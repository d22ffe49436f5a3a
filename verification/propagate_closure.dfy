/** What the propagation loop of src/propagate.py:38-52 computes for one
    protein, stated against its direct predictions `gos` (an insertion-ordered
    dict) and the ancestor table `go2anc`. */
module PropagateClosure {
  import opened Wrappers
  import opened Dicts
  import opened Propagate

  /** `max` of an optional value and a value. */
  function MaxOpt(m: Option<real>, x: real): real {
    match m
    case None => x
    case Some(y) => Max(y, x)
  }

  /** The largest score among direct terms number `lo` to `hi - 1` (in
      insertion order) that have `t` among their ancestors, if any. */
  function Best(gos: Dict<Term, Entry>, go2anc: map<Term, set<Term>>, t: Term, lo: nat, hi: nat): Option<real>
    requires gos.Valid() && lo <= hi <= |gos.keys|
    decreases hi
  {
    if lo == hi then None
    else
      var prev := Best(gos, go2anc, t, lo, hi - 1);
      var g := gos.keys[hi - 1];
      if t in AncestorsOf(go2anc, g) then Some(MaxOpt(prev, gos.items[g].score)) else prev
  }

  /** `Best` is the maximum of the scores it ranges over, and is absent
      exactly when no direct term in the range has `t` as an ancestor. */
  lemma {:induction false} BestIsMax(gos: Dict<Term, Entry>, go2anc: map<Term, set<Term>>, t: Term, lo: nat, hi: nat)
    requires gos.Valid() && lo <= hi <= |gos.keys|
    ensures Best(gos, go2anc, t, lo, hi).None? <==>
              forall j :: lo <= j < hi ==> t !in AncestorsOf(go2anc, gos.keys[j])
    ensures Best(gos, go2anc, t, lo, hi).Some? ==>
              (exists j :: lo <= j < hi && t in AncestorsOf(go2anc, gos.keys[j])
                           && gos.items[gos.keys[j]].score == Best(gos, go2anc, t, lo, hi).value)
              && (forall j :: lo <= j < hi && t in AncestorsOf(go2anc, gos.keys[j]) ==>
                                gos.items[gos.keys[j]].score <= Best(gos, go2anc, t, lo, hi).value)
    decreases hi
  {
    if lo < hi {
      BestIsMax(gos, go2anc, t, lo, hi - 1);
    }
  }

  /** Did processing direct term number `j` write the entry of `t`? It
      writes its own entry (line 42) and those of its ancestors (47, 50, 52). */
  predicate Writes(gos: Dict<Term, Entry>, go2anc: map<Term, set<Term>>, t: Term, j: nat)
    requires j < |gos.keys|
  {
    gos.keys[j] == t || t in AncestorsOf(go2anc, gos.keys[j])
  }

  /** The last of the first `n` direct terms that wrote the entry of `t`. */
  function LastWriter(gos: Dict<Term, Entry>, go2anc: map<Term, set<Term>>, t: Term, n: nat): (w: Option<nat>)
    requires n <= |gos.keys|
    ensures w.Some? ==> w.value < n && Writes(gos, go2anc, t, w.value)
                        && forall k :: w.value < k < n ==> !Writes(gos, go2anc, t, k)
    ensures w.None? ==> forall k :: 0 <= k < n ==> !Writes(gos, go2anc, t, k)
  {
    if n == 0 then None
    else if Writes(gos, go2anc, t, n - 1) then Some(n - 1)
    else LastWriter(gos, go2anc, t, n - 1)
  }

  /** The score the entry of `t` holds after the first `n` direct terms. A
      direct term already processed keeps the max of its own score and those
      of the terms processed after it that have it as an ancestor; a direct
      term not yet processed mixes its own score in (line 49); any other
      term holds the max over the terms that have it as an ancestor. */
  function Expected(gos: Dict<Term, Entry>, go2anc: map<Term, set<Term>>, t: Term, n: nat): real
    requires gos.Valid() && n <= |gos.keys|
  {
    if t in gos.keys[..n] then
      assert t in gos.keys;
      MaxOpt(Best(gos, go2anc, t, IndexIn(gos.keys[..n], t) + 1, n), gos.items[t].score)
    else if t in gos.items then MaxOpt(Best(gos, go2anc, t, 0, n), gos.items[t].score)
    else match Best(gos, go2anc, t, 0, n)
      case Some(v) => v
      case None => 0.0
  }

  /** The loop invariant of lines 41-52, for one term `t`: which terms have
      an entry, what score and which namespace it holds. */
  ghost predicate AgreesAt(gos: Dict<Term, Entry>, go2anc: map<Term, set<Term>>, n: nat, prop: map<Term, Entry>, t: Term)
    requires gos.Valid() && n <= |gos.keys|
  {
    && (t in prop <==> t in gos.keys[..n] || Best(gos, go2anc, t, 0, n).Some?)
    && (t in prop ==>
          && prop[t].score == Expected(gos, go2anc, t, n)
          && LastWriter(gos, go2anc, t, n).Some?
          && prop[t].ont == gos.items[gos.keys[LastWriter(gos, go2anc, t, n).value]].ont)
  }

  /** Processing direct term number `n` keeps the invariant. */
  lemma StepAgreesAt(gos: Dict<Term, Entry>, go2anc: map<Term, set<Term>>, n: nat, prop: map<Term, Entry>, t: Term)
    requires gos.Valid() && n < |gos.keys| && Resolvable(go2anc, gos.keys[n])
    requires AgreesAt(gos, go2anc, n, prop, t)
    ensures AgreesAt(gos, go2anc, n + 1, Step(prop, gos.items, gos.keys[n], AncestorsOf(go2anc, gos.keys[n])), t)
  {
    var ks := gos.keys;
    assert ks[..n + 1] == ks[..n] + [ks[n]];
    assert ks[n] !in ks[..n];
    if t == ks[n] {
      StepSelf(gos, go2anc, n, prop);
    } else if t in AncestorsOf(go2anc, ks[n]) {
      StepAncestor(gos, go2anc, n, prop, t);
    } else {
      StepOther(gos, go2anc, n, prop, t);
    }
  }

  /** The term being processed gets its own entry back (line 42); if it is
      among its own ancestors, the max with itself changes nothing. */
  lemma StepSelf(gos: Dict<Term, Entry>, go2anc: map<Term, set<Term>>, n: nat, prop: map<Term, Entry>)
    requires gos.Valid() && n < |gos.keys|
    requires gos.keys[..n + 1] == gos.keys[..n] + [gos.keys[n]] && gos.keys[n] !in gos.keys[..n]
    ensures AgreesAt(gos, go2anc, n + 1, Step(prop, gos.items, gos.keys[n], AncestorsOf(go2anc, gos.keys[n])), gos.keys[n])
  {
    var g := gos.keys[n];
    assert g in gos.items;
    assert IndexIn(gos.keys[..n + 1], g) == n;
    assert Step(prop, gos.items, g, AncestorsOf(go2anc, g))[g] == gos.items[g];
  }

  /** An ancestor of the term being processed is raised to the max of what
      it held (or its own direct score) and the term's score (lines 45-52). */
  lemma StepAncestor(gos: Dict<Term, Entry>, go2anc: map<Term, set<Term>>, n: nat, prop: map<Term, Entry>, t: Term)
    requires gos.Valid() && n < |gos.keys|
    requires gos.keys[..n + 1] == gos.keys[..n] + [gos.keys[n]] && gos.keys[n] !in gos.keys[..n]
    requires t != gos.keys[n] && t in AncestorsOf(go2anc, gos.keys[n])
    requires AgreesAt(gos, go2anc, n, prop, t)
    ensures AgreesAt(gos, go2anc, n + 1, Step(prop, gos.items, gos.keys[n], AncestorsOf(go2anc, gos.keys[n])), t)
  {
    var g := gos.keys[n];
    assert g in gos.items;
    assert Best(gos, go2anc, t, 0, n + 1) == Some(MaxOpt(Best(gos, go2anc, t, 0, n), gos.items[g].score));
    assert LastWriter(gos, go2anc, t, n + 1) == Some(n);
    StepAncestorEntry(gos, go2anc, n, prop, t);
  }

  /** The raised entry's score and namespace. */
  lemma StepAncestorEntry(gos: Dict<Term, Entry>, go2anc: map<Term, set<Term>>, n: nat, prop: map<Term, Entry>, t: Term)
    requires gos.Valid() && n < |gos.keys|
    requires gos.keys[..n + 1] == gos.keys[..n] + [gos.keys[n]] && gos.keys[n] !in gos.keys[..n]
    requires t != gos.keys[n] && t in AncestorsOf(go2anc, gos.keys[n])
    requires AgreesAt(gos, go2anc, n, prop, t)
    ensures var e := Step(prop, gos.items, gos.keys[n], AncestorsOf(go2anc, gos.keys[n]))[t];
            e.score == Expected(gos, go2anc, t, n + 1) && e.ont == gos.items[gos.keys[n]].ont
  {
    var ks := gos.keys;
    var g := ks[n];
    assert g in gos.items;
    var s := gos.items[g].score;
    var b0 := Best(gos, go2anc, t, 0, n);
    assert Best(gos, go2anc, t, 0, n + 1) == Some(MaxOpt(b0, s));
    assert t in ks[..n + 1] <==> t in ks[..n];
    var e := Step(prop, gos.items, g, AncestorsOf(go2anc, g))[t];
    assert e == Raise(prop, gos.items, g, t);
    if t in ks[..n] {
      IndexInPrefix(ks, t, n, n + 1);
      var i := IndexIn(ks[..n], t);
      assert Best(gos, go2anc, t, i + 1, n + 1) == Some(MaxOpt(Best(gos, go2anc, t, i + 1, n), s));
      assert e.score == Max(prop[t].score, s);
    } else if t in prop {
      assert e.score == Max(prop[t].score, s);
    } else if t in gos.items {
      assert b0.None?;
      assert e.score == Max(gos.items[t].score, s);
    } else {
      assert b0.None?;
      assert e.score == s;
    }
  }

  /** Every other entry is left alone. */
  lemma StepOther(gos: Dict<Term, Entry>, go2anc: map<Term, set<Term>>, n: nat, prop: map<Term, Entry>, t: Term)
    requires gos.Valid() && n < |gos.keys|
    requires gos.keys[..n + 1] == gos.keys[..n] + [gos.keys[n]] && gos.keys[n] !in gos.keys[..n]
    requires t != gos.keys[n] && t !in AncestorsOf(go2anc, gos.keys[n])
    requires AgreesAt(gos, go2anc, n, prop, t)
    ensures AgreesAt(gos, go2anc, n + 1, Step(prop, gos.items, gos.keys[n], AncestorsOf(go2anc, gos.keys[n])), t)
  {
    var ks := gos.keys;
    var g := ks[n];
    var next := Step(prop, gos.items, g, AncestorsOf(go2anc, g));
    assert Best(gos, go2anc, t, 0, n + 1) == Best(gos, go2anc, t, 0, n);
    assert t in ks[..n + 1] <==> t in ks[..n];
    if t in ks[..n] {
      IndexInPrefix(ks, t, n, n + 1);
      var i := IndexIn(ks[..n], t);
      assert Best(gos, go2anc, t, i + 1, n + 1) == Best(gos, go2anc, t, i + 1, n);
    }
    assert Expected(gos, go2anc, t, n + 1) == Expected(gos, go2anc, t, n);
    assert LastWriter(gos, go2anc, t, n + 1) == LastWriter(gos, go2anc, t, n);
    assert t in next <==> t in prop;
    assert t in prop ==> next[t] == prop[t];
  }

  /** The invariant holds after every prefix of the direct terms. */
  lemma {:induction false} PropagatedAgrees(gos: Dict<Term, Entry>, go2anc: map<Term, set<Term>>, n: nat, t: Term)
    requires gos.Valid() && n <= |gos.keys| && Propagated(gos, go2anc, n).Ok?
    ensures AgreesAt(gos, go2anc, n, Propagated(gos, go2anc, n).value, t)
  {
    if n > 0 {
      PropagatedAgrees(gos, go2anc, n - 1, t);
      StepAgreesAt(gos, go2anc, n - 1, Propagated(gos, go2anc, n - 1).value, t);
    }
  }

  // ---------------------------------------------------------------------
  // Properties of a protein's complete closure

  /** Propagation fails exactly when some direct term's underscored form is
      not a key of `go2anc`, and then with the KeyError of the first such term. */
  lemma {:induction false} PropagatedOk(gos: Dict<Term, Entry>, go2anc: map<Term, set<Term>>, n: nat)
    requires gos.Valid() && n <= |gos.keys|
    ensures Propagated(gos, go2anc, n).Ok? <==> forall j :: 0 <= j < n ==> Resolvable(go2anc, gos.keys[j])
    ensures Propagated(gos, go2anc, n).Err? ==>
              exists j :: 0 <= j < n && !Resolvable(go2anc, gos.keys[j])
                          && Propagated(gos, go2anc, n).error == MissingAncestors(Underscored(gos.keys[j]))
                          && forall k :: 0 <= k < j ==> Resolvable(go2anc, gos.keys[k])
  {
    if n > 0 {
      PropagatedOk(gos, go2anc, n - 1);
    }
  }

  /** Whether propagation succeeds does not depend on the order of the
      direct predictions. */
  lemma PropagationOkOrderFree(gos: Dict<Term, Entry>, other: Dict<Term, Entry>, go2anc: map<Term, set<Term>>)
    requires gos.Valid() && other.Valid() && gos.items == other.items
    ensures Propagation(gos, go2anc).Ok? <==> forall g :: g in gos.items ==> Resolvable(go2anc, g)
    ensures Propagation(gos, go2anc).Ok? <==> Propagation(other, go2anc).Ok?
  {
    PropagatedOk(gos, go2anc, |gos.keys|);
    PropagatedOk(other, go2anc, |other.keys|);
    if forall j :: 0 <= j < |gos.keys| ==> Resolvable(go2anc, gos.keys[j]) {
      forall g | g in gos.items ensures Resolvable(go2anc, g) {
        var j := IndexIn(gos.keys, g);
      }
    }
    if forall j :: 0 <= j < |other.keys| ==> Resolvable(go2anc, other.keys[j]) {
      forall g | g in other.items ensures Resolvable(go2anc, g) {
        var j := IndexIn(other.keys, g);
      }
    }
  }

  /** The terms of a protein's closure are exactly its direct terms and
      the ancestors of each of them; in particular no direct term is lost. */
  lemma ClosureKeys(gos: Dict<Term, Entry>, go2anc: map<Term, set<Term>>, t: Term)
    requires gos.Valid() && Propagation(gos, go2anc).Ok?
    ensures t in Propagation(gos, go2anc).value <==>
              t in gos.items || exists g :: g in gos.items && t in AncestorsOf(go2anc, g)
  {
    var ks := gos.keys;
    PropagatedAgrees(gos, go2anc, |ks|, t);
    BestIsMax(gos, go2anc, t, 0, |ks|);
    assert ks[..|ks|] == ks;
    if exists g :: g in gos.items && t in AncestorsOf(go2anc, g) {
      var g :| g in gos.items && t in AncestorsOf(go2anc, g);
      var j := IndexIn(ks, g);
      assert t in AncestorsOf(go2anc, ks[j]);
    }
  }

  /** A directly predicted term ends with the max of its own score and the
      scores of the direct terms processed AFTER it that have it as an
      ancestor (line 42 overwrites whatever earlier terms had put there).
      So it never falls below its own score. */
  lemma DirectTermScore(gos: Dict<Term, Entry>, go2anc: map<Term, set<Term>>, t: Term)
    requires gos.Valid() && Propagation(gos, go2anc).Ok? && t in gos.items
    ensures t in Propagation(gos, go2anc).value
    ensures var r := Propagation(gos, go2anc).value; var i := IndexIn(gos.keys, t);
            && r[t].score >= gos.items[t].score
            && (r[t].score == gos.items[t].score
                || exists j :: i < j < |gos.keys| && t in AncestorsOf(go2anc, gos.keys[j])
                                && r[t].score == gos.items[gos.keys[j]].score)
            && forall j :: i < j < |gos.keys| && t in AncestorsOf(go2anc, gos.keys[j]) ==>
                             gos.items[gos.keys[j]].score <= r[t].score
  {
    var ks := gos.keys;
    var r := Propagation(gos, go2anc).value;
    var i := IndexIn(ks, t);
    DirectTermBest(gos, go2anc, t);
    BestIsMax(gos, go2anc, t, i + 1, |ks|);
    var b := Best(gos, go2anc, t, i + 1, |ks|);
    if b.Some? && b.value > gos.items[t].score {
      assert r[t].score == b.value;
    }
  }

  lemma DirectTermBest(gos: Dict<Term, Entry>, go2anc: map<Term, set<Term>>, t: Term)
    requires gos.Valid() && Propagation(gos, go2anc).Ok? && t in gos.items
    ensures t in Propagation(gos, go2anc).value
    ensures Propagation(gos, go2anc).value[t].score
            == MaxOpt(Best(gos, go2anc, t, IndexIn(gos.keys, t) + 1, |gos.keys|), gos.items[t].score)
  {
    var ks := gos.keys;
    var r := Propagation(gos, go2anc).value;
    PropagatedAgrees(gos, go2anc, |ks|, t);
    assert ks[..|ks|] == ks;
    assert t in ks;
    assert t in ks[..|ks|];
    var i := IndexIn(ks[..|ks|], t);
    assert i == IndexIn(ks, t);
    assert Expected(gos, go2anc, t, |ks|) == MaxOpt(Best(gos, go2anc, t, i + 1, |ks|), gos.items[t].score);
  }

  /** A term that is only an ancestor ends with the max of the scores of the
      direct terms that have it as an ancestor, whatever their order. */
  lemma AncestorTermScore(gos: Dict<Term, Entry>, go2anc: map<Term, set<Term>>, t: Term)
    requires gos.Valid() && Propagation(gos, go2anc).Ok?
    requires t in Propagation(gos, go2anc).value && t !in gos.items
    ensures var r := Propagation(gos, go2anc).value;
            && (exists g :: g in gos.items && t in AncestorsOf(go2anc, g) && r[t].score == gos.items[g].score)
            && forall g :: g in gos.items && t in AncestorsOf(go2anc, g) ==> gos.items[g].score <= r[t].score
  {
    var ks := gos.keys;
    PropagatedAgrees(gos, go2anc, |ks|, t);
    assert ks[..|ks|] == ks;
    BestIsMax(gos, go2anc, t, 0, |ks|);
    forall g | g in gos.items && t in AncestorsOf(go2anc, g)
      ensures gos.items[g].score <= Propagation(gos, go2anc).value[t].score
    {
      var j := IndexIn(ks, g);
      assert t in AncestorsOf(go2anc, ks[j]);
    }
  }

  /** Reordering a protein's direct predictions changes neither which terms
      its closure holds nor the score of any term that is only an ancestor. */
  lemma AncestorTermOrderFree(gos: Dict<Term, Entry>, other: Dict<Term, Entry>, go2anc: map<Term, set<Term>>, t: Term)
    requires gos.Valid() && other.Valid() && gos.items == other.items
    requires Propagation(gos, go2anc).Ok?
    ensures Propagation(other, go2anc).Ok?
    ensures t in Propagation(gos, go2anc).value <==> t in Propagation(other, go2anc).value
    ensures t in Propagation(gos, go2anc).value && t !in gos.items ==>
              Propagation(gos, go2anc).value[t].score == Propagation(other, go2anc).value[t].score
  {
    PropagationOkOrderFree(gos, other, go2anc);
    ClosureKeys(gos, go2anc, t);
    ClosureKeys(other, go2anc, t);
    if t in Propagation(gos, go2anc).value && t !in gos.items {
      AncestorTermScore(gos, go2anc, t);
      AncestorTermScore(other, go2anc, t);
    }
  }

  /** The ancestor table and the predictions of the example below: B has A
      as its only ancestor, and A is predicted with a lower score than B. */
  function ExampleTable(): map<Term, set<Term>> {
    map["GO_A" := {}, "GO_B" := {"GO_A"}]
  }

  function ExampleScores(): map<Term, Entry> {
    map["GO_A" := Entry(0.5, "F"), "GO_B" := Entry(0.9, "F")]
  }

  lemma ExampleResolvable(gos: Dict<Term, Entry>)
    requires gos.Valid() && gos.items == ExampleScores() && |gos.keys| == 2
    ensures Propagation(gos, ExampleTable()).Ok?
    ensures AncestorsOf(ExampleTable(), "GO_B") == {"GO_A"}
  {
    Text.ReplaceAbsent("GO_A", ':', '_');
    Text.ReplaceAbsent("GO_B", ':', '_');
    assert gos.keys[0] in gos.items && gos.keys[1] in gos.items;
    PropagatedOk(gos, ExampleTable(), 2);
  }

  /** With A processed before B, A is raised to B's score. */
  lemma ExampleAncestorFirst()
    ensures var gos := Dict(["GO_A", "GO_B"], ExampleScores());
            && gos.Valid() && Propagation(gos, ExampleTable()).Ok?
            && "GO_A" in Propagation(gos, ExampleTable()).value
            && Propagation(gos, ExampleTable()).value["GO_A"].score == 0.9
  {
    var gos := Dict(["GO_A", "GO_B"], ExampleScores());
    ExampleResolvable(gos);
    DirectTermScore(gos, ExampleTable(), "GO_A");
    assert IndexIn(gos.keys, "GO_A") == 0;
    assert "GO_A" in AncestorsOf(ExampleTable(), gos.keys[1]);
  }

  /** With A processed after B, line 42 puts A's own score back. */
  lemma ExampleAncestorLast()
    ensures var gos := Dict(["GO_B", "GO_A"], ExampleScores());
            && gos.Valid() && Propagation(gos, ExampleTable()).Ok?
            && "GO_A" in Propagation(gos, ExampleTable()).value
            && Propagation(gos, ExampleTable()).value["GO_A"].score == 0.5
  {
    var gos := Dict(["GO_B", "GO_A"], ExampleScores());
    ExampleResolvable(gos);
    DirectTermScore(gos, ExampleTable(), "GO_A");
    assert IndexIn(gos.keys, "GO_A") == 1;
  }

  /** So the score of a directly predicted term depends on the order of the
      direct predictions: the same two predictions in the two orders give A
      two different scores. */
  lemma DirectTermOrderMatters()
    ensures exists gos: Dict<Term, Entry>, other: Dict<Term, Entry> ::
              && gos.Valid() && other.Valid() && gos.items == other.items
              && Propagation(gos, ExampleTable()).Ok? && Propagation(other, ExampleTable()).Ok?
              && "GO_A" in gos.items
              && "GO_A" in Propagation(gos, ExampleTable()).value && "GO_A" in Propagation(other, ExampleTable()).value
              && Propagation(gos, ExampleTable()).value["GO_A"] != Propagation(other, ExampleTable()).value["GO_A"]
  {
    ExampleAncestorFirst();
    ExampleAncestorLast();
    var gos := Dict(["GO_A", "GO_B"], ExampleScores());
    var other := Dict(["GO_B", "GO_A"], ExampleScores());
    assert "GO_A" in gos.items;
  }

  /** The namespace kept for a term is that of the last direct term, in
      insertion order, that wrote its entry: itself (line 42) or a term
      having it as an ancestor (lines 47, 50, 52). */
  lemma ClosureNamespace(gos: Dict<Term, Entry>, go2anc: map<Term, set<Term>>, t: Term)
    requires gos.Valid() && Propagation(gos, go2anc).Ok? && t in Propagation(gos, go2anc).value
    ensures exists j :: 0 <= j < |gos.keys| && Writes(gos, go2anc, t, j)
                        && Propagation(gos, go2anc).value[t].ont == gos.items[gos.keys[j]].ont
                        && forall k :: j < k < |gos.keys| ==> !Writes(gos, go2anc, t, k)
  {
    PropagatedAgrees(gos, go2anc, |gos.keys|, t);
    var j := LastWriter(gos, go2anc, t, |gos.keys|).value;
    assert Writes(gos, go2anc, t, j);
  }

  /** Every score in a closure is the direct score of one of the protein's
      own predictions, so propagation never leaves the range of its input. */
  lemma ClosureScoreIsDirect(gos: Dict<Term, Entry>, go2anc: map<Term, set<Term>>, t: Term)
    requires gos.Valid() && Propagation(gos, go2anc).Ok? && t in Propagation(gos, go2anc).value
    ensures exists g :: g in gos.items && Propagation(gos, go2anc).value[t].score == gos.items[g].score
  {
    if t in gos.items {
      DirectTermScore(gos, go2anc, t);
    } else {
      AncestorTermScore(gos, go2anc, t);
    }
  }
}
