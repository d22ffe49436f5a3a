/** The UniProt record filter (src/get_fastas_uniprot.py): copy the records
    of a FASTA file whose accession, the second `|`-separated field of the
    header, is in a list of wanted accessions. */
module GetFastasUniprot {
  import opened Wrappers
  import opened Text

  /** Line 23: the wanted accessions, one per line of the list file, each
      stripped of surrounding whitespace; so none of them begins or ends
      with whitespace. */
  function IdSet(list: seq<string>): (ids: set<string>)
    ensures forall k :: 0 <= k < |list| ==> Strip(list[k]) in ids
    ensures forall x :: x in ids ==> x == [] || (!IsSpace(x[0]) && !IsSpace(x[|x| - 1]))
  {
    forall k | 0 <= k < |list| ensures var x := Strip(list[k]); x == [] || (!IsSpace(x[0]) && !IsSpace(x[|x| - 1])) {
      StripPiece(list[k]);
    }
    set k | 0 <= k < |list| :: Strip(list[k])
  }

  /** Line 28. */
  predicate IsHeader(line: string) {
    StartsWith(line, ">")
  }

  /** Line 29: `line.split('|')[1]`, the text between the first `|` and the
      next one (or the end of the line, newline included); there is none,
      and Python raises IndexError, when the line holds no `|`. */
  function HeaderField(line: string): (r: Option<string>)
    ensures r.Some? <==> '|' in line
    ensures r.Some? ==>
              var i := IndexOf(line, '|');
              && '|' !in r.value
              && i + 1 + |r.value| <= |line|
              && line[i + 1..i + 1 + |r.value|] == r.value
              && (i + 1 + |r.value| == |line| || line[i + 1 + |r.value|] == '|')
  {
    SplitCount(line, '|');
    var parts := Split(line, '|');
    if |parts| >= 2 then
      var i := IndexOf(line, '|');
      var rest := line[i + 1..];
      var j := IndexOf(rest, '|');
      assert parts[1] == rest[..j];
      assert line[i + 1..i + 1 + j] == rest[..j];
      Some(parts[1])
    else None
  }

  /** The IndexError of line 29, with the 0-based number of the header that
      has no `|`. */
  datatype FilterError = NoField(line: nat)

  /** A header whose accession is wanted. */
  predicate Selects(ids: set<string>, header: string) {
    HeaderField(header).Some? && HeaderField(header).value in ids
  }

  // ---------------------------------------------------------------------
  // What gets written, stated without the `write` flag

  /** The most recent header at or before line `k`, if any. */
  function LastHeader(lines: seq<string>, k: nat): (h: Option<nat>)
    requires k < |lines|
    ensures h.Some? ==> h.value <= k && IsHeader(lines[h.value])
                        && forall j :: h.value < j <= k ==> !IsHeader(lines[j])
    ensures h.None? ==> forall j :: 0 <= j <= k ==> !IsHeader(lines[j])
  {
    if IsHeader(lines[k]) then Some(k)
    else if k == 0 then None
    else LastHeader(lines, k - 1)
  }

  /** Line `k` is copied: the most recent header at or before it exists
      and selects. */
  predicate Written(lines: seq<string>, ids: set<string>, k: nat)
    requires k < |lines|
  {
    match LastHeader(lines, k)
    case None => false
    case Some(h) => Selects(ids, lines[h])
  }

  /** The copied lines among the first `n`, in their order. */
  function Kept(lines: seq<string>, ids: set<string>, n: nat): seq<string>
    requires n <= |lines|
  {
    if n == 0 then []
    else Kept(lines, ids, n - 1) + (if Written(lines, ids, n - 1) then [lines[n - 1]] else [])
  }

  /** Every header among the first `n` lines has a `|`. */
  predicate Splittable(lines: seq<string>, n: nat)
    requires n <= |lines|
  {
    forall k :: 0 <= k < n && IsHeader(lines[k]) ==> '|' in lines[k]
  }

  // ---------------------------------------------------------------------
  // Lines 25-32

  /** The loop of lines 26-32 over the FASTA file `lines`: `write` starts
      false, every header resets it to whether its accession is wanted, and
      each line is copied while it is set. A header without `|` stops the
      run with what was copied before it. */
  method FilterRecords(lines: seq<string>, ids: set<string>) returns (out: seq<string>, err: Option<FilterError>)
    ensures err.None? <==> Splittable(lines, |lines|)
    ensures err.Some? ==> var k := err.value.line;
              k < |lines| && IsHeader(lines[k]) && '|' !in lines[k] && Splittable(lines, k)
    ensures out == Kept(lines, ids, if err.None? then |lines| else err.value.line)
  {
    out := [];
    var write := false;
    var i := 0;
    while i < |lines|
      invariant i <= |lines|
      invariant Splittable(lines, i)
      invariant write == (i > 0 && Written(lines, ids, i - 1))
      invariant out == Kept(lines, ids, i)
    {
      var line := lines[i];
      if StartsWith(line, ">") {
        var prot := HeaderField(line);
        if prot.None? {
          return out, Some(NoField(i));
        }
        write := prot.value in ids;
      }
      if write {
        out := out + [line];
      }
      i := i + 1;
    }
    err := None;
  }

  // ---------------------------------------------------------------------
  // Properties of the copied lines

  /** The input positions of the copied lines among the first `n`, in
      increasing order; `KeptAt`, `KeptIndicesIncrease` and
      `KeptIndicesComplete` say what they index. */
  function KeptIndices(lines: seq<string>, ids: set<string>, n: nat): (idx: seq<nat>)
    requires n <= |lines|
    ensures |idx| == |Kept(lines, ids, n)|
    ensures forall j :: 0 <= j < |idx| ==> idx[j] < n
  {
    if n == 0 then []
    else
      var prev := KeptIndices(lines, ids, n - 1);
      if Written(lines, ids, n - 1) then prev + [n - 1] else prev
  }

  /** The copied lines are input lines, unmodified: the `j`-th copied line
      is input line `KeptIndices[j]`, and that line is written. */
  lemma {:induction false} KeptAt(lines: seq<string>, ids: set<string>, n: nat, j: nat)
    requires n <= |lines| && j < |Kept(lines, ids, n)|
    ensures var idx := KeptIndices(lines, ids, n);
            Written(lines, ids, idx[j]) && Kept(lines, ids, n)[j] == lines[idx[j]]
  {
    var prev := KeptIndices(lines, ids, n - 1);
    var kept := Kept(lines, ids, n - 1);
    if j < |kept| {
      KeptAt(lines, ids, n - 1, j);
      if Written(lines, ids, n - 1) {
        assert Kept(lines, ids, n) == kept + [lines[n - 1]];
        assert KeptIndices(lines, ids, n) == prev + [n - 1];
      } else {
        assert Kept(lines, ids, n) == kept;
      }
    } else {
      assert Written(lines, ids, n - 1);
      assert Kept(lines, ids, n) == kept + [lines[n - 1]];
      assert KeptIndices(lines, ids, n) == prev + [n - 1];
    }
  }

  /** The copied lines keep their input order. */
  lemma {:induction false} KeptIndicesIncrease(lines: seq<string>, ids: set<string>, n: nat, i: nat, j: nat)
    requires n <= |lines| && i < j < |KeptIndices(lines, ids, n)|
    ensures KeptIndices(lines, ids, n)[i] < KeptIndices(lines, ids, n)[j]
  {
    var prev := KeptIndices(lines, ids, n - 1);
    if j < |prev| {
      KeptIndicesIncrease(lines, ids, n - 1, i, j);
    }
  }

  /** Every line that is written is copied. */
  lemma {:induction false} KeptIndicesComplete(lines: seq<string>, ids: set<string>, n: nat, k: nat)
    requires k < n <= |lines| && Written(lines, ids, k)
    ensures k in KeptIndices(lines, ids, n)
  {
    if k < n - 1 {
      KeptIndicesComplete(lines, ids, n - 1, k);
    }
  }

  /** A header is copied exactly when its own accession is wanted. */
  lemma HeaderWritten(lines: seq<string>, ids: set<string>, k: nat)
    requires k < |lines| && IsHeader(lines[k])
    ensures Written(lines, ids, k) <==> Selects(ids, lines[k])
  {
  }

  /** Lines before the first header are never copied. */
  lemma PreambleDropped(lines: seq<string>, ids: set<string>, k: nat)
    requires k < |lines| && forall j :: 0 <= j <= k ==> !IsHeader(lines[j])
    ensures !Written(lines, ids, k)
  {
  }

  /** Any other line is copied exactly when some earlier header selects and
      no header comes between them. */
  lemma BodyWritten(lines: seq<string>, ids: set<string>, k: nat)
    requires k < |lines| && !IsHeader(lines[k])
    ensures Written(lines, ids, k) <==>
              exists h :: 0 <= h < k && IsHeader(lines[h]) && Selects(ids, lines[h])
                          && forall j :: h < j <= k ==> !IsHeader(lines[j])
  {
    var last := LastHeader(lines, k);
    if last.Some? {
      assert last.value < k;
    }
    forall h | 0 <= h < k && IsHeader(lines[h]) && forall j :: h < j <= k ==> !IsHeader(lines[j])
      ensures last == Some(h)
    {
      assert last.Some?;
    }
  }

  /** The accession is not stripped, but the wanted ones are: an accession
      that ends in whitespace is never wanted. */
  lemma UnstrippedNeverSelected(list: seq<string>, header: string)
    requires HeaderField(header).Some?
    requires var f := HeaderField(header).value; |f| > 0 && IsSpace(f[|f| - 1])
    ensures !Selects(IdSet(list), header)
  {
  }

  /** So a header with only two fields, `>db|ACC` followed by its newline,
      is never selected, even when ACC is listed. */
  lemma TwoFieldHeaderDropped(list: seq<string>, db: string, acc: string)
    requires '|' !in db && '|' !in acc
    ensures HeaderField(">" + db + "|" + acc + "\n") == Some(acc + "\n")
    ensures !Selects(IdSet(list), ">" + db + "|" + acc + "\n")
  {
    var header := ">" + db + "|" + acc + "\n";
    var i := |db| + 1;
    assert header == (">" + db) + ['|'] + (acc + "\n");
    IndexOfAfter(">" + db, '|', acc + "\n");
    var f := HeaderField(header).value;
    assert header[i + 1..] == acc + "\n";
    assert f == acc + "\n";
    UnstrippedNeverSelected(list, header);
  }
}
