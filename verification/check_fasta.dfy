/** FASTA header normalisation (src/check_fasta.py): UniProt headers
    `>sp|ID|rest` / `>tr|ID|rest` become `>ID rest`, headers that are
    already `>ID rest` without any `|` are kept, anything else is refused. */
module CheckFasta {
  import opened Wrappers
  import opened Text

  /** The characters `rstrip('\n\r')` removes. */
  const LineEnds: set<char> := {'\n', '\r'}

  /** The `ValueError` of line 39, carrying the header after `rstrip`. */
  datatype HeaderError = Unsupported(header: string)

  // ---------------------------------------------------------------------
  // The two patterns, as declarative predicates. They are only applied to
  // headers whose trailing newlines have been stripped, where `$` can only
  // match at the very end.

  /** `^>(sp|tr)\|([^|]+)\|(.+)$` matches `h` with the ID group ending just
      before index `j`, the second `|`. */
  predicate UniProtAt(h: string, j: int) {
    (StartsWith(h, ">sp|") || StartsWith(h, ">tr|"))
    && 4 < j < |h| - 1 && h[j] == '|'
    && (forall k :: 4 <= k < j ==> h[k] != '|')
    && (forall k :: j < k < |h| ==> h[k] != '\n')
  }

  /** Every character of `h[i..j]` is whitespace (`\s`). */
  predicate SpaceRun(h: string, i: int, j: int)
    requires 0 <= i <= j <= |h|
  {
    forall k :: i <= k < j ==> IsSpace(h[k])
  }

  /** `^>(\S+)(?:\s+.*)?$` matches `h` with the `\S+` group ending just
      before index `i`; the optional tail is a non-empty whitespace run
      `h[i..j]` followed by characters other than a newline. */
  predicate UniversalAt(h: string, i: int) {
    1 < i <= |h| && h[0] == '>'
    && (forall k :: 1 <= k < i ==> !IsSpace(h[k]))
    && (i == |h| || exists j :: i < j <= |h| && SpaceRun(h, i, j) && '\n' !in h[j..])
  }

  // ---------------------------------------------------------------------
  // Matching

  /** The `(ID, rest)` groups of the UniProt pattern, if it matches. */
  function UniProtGroups(h: string): (r: Option<(string, string)>)
    ensures r.Some? <==> exists j :: UniProtAt(h, j)
    ensures forall j :: UniProtAt(h, j) ==> r == Some((h[4..j], h[j + 1..]))
  {
    if StartsWith(h, ">sp|") || StartsWith(h, ">tr|") then
      var j := 4 + IndexOf(h[4..], '|');
      assert forall k :: 4 <= k < j ==> h[k] == h[4..][k - 4];
      if 4 < j < |h| - 1 && '\n' !in h[j + 1..] then
        assert UniProtAt(h, j) by {
          forall k | j < k < |h| ensures h[k] != '\n' {
            assert h[k] == h[j + 1..][k - j - 1];
          }
        }
        Some((h[4..j], h[j + 1..]))
      else
        assert forall k :: j < k < |h| ==> h[k] == h[j + 1..][k - j - 1];
        None
    else
      None
  }

  /** Whether the universal pattern matches: the `\S+` group is the whole
      maximal run of non-whitespace after `>`, and past the whitespace that
      follows it there is no newline. */
  function IsUniversal(h: string): bool {
    if |h| < 2 || h[0] != '>' then false
    else
      var i := 1 + LeadingNotIn(h[1..], Whitespace);
      i > 1 && (i == |h| || '\n' !in h[i + LeadingIn(h[i..], Whitespace)..])
  }

  /** `IsUniversal` decides the universal pattern. */
  lemma UniversalMatches(h: string)
    ensures IsUniversal(h) <==> exists i :: UniversalAt(h, i)
  {
    if |h| >= 2 && h[0] == '>' {
      var i := 1 + LeadingNotIn(h[1..], Whitespace);
      assert forall k :: 1 <= k < i ==> h[k] == h[1..][k - 1];
      if IsUniversal(h) {
        if i < |h| {
          var j := i + LeadingIn(h[i..], Whitespace);
          assert forall k :: i <= k < j ==> h[k] == h[i..][k - i];
          assert SpaceRun(h, i, j);
        }
        assert UniversalAt(h, i);
      }
      if i' :| UniversalAt(h, i') {
        UniversalEnd(h, i');
        if i < |h| {
          var j' :| i < j' <= |h| && SpaceRun(h, i, j') && '\n' !in h[j'..];
          var n := LeadingIn(h[i..], Whitespace);
          assert forall k :: i <= k < j' ==> h[k] == h[i..][k - i];
          assert j' <= i + n;
          assert forall k :: i + n <= k < |h| ==> h[k] == h[j'..][k - j'];
          assert forall k :: i + n <= k < |h| ==> h[k] == h[i + n..][k - i - n];
        }
      }
    }
  }

  /** The `\S+` group of a universal match always ends at the first
      whitespace after `>`. */
  lemma UniversalEnd(h: string, i: int)
    requires UniversalAt(h, i)
    ensures i == 1 + LeadingNotIn(h[1..], Whitespace)
  {
    var n := 1 + LeadingNotIn(h[1..], Whitespace);
    assert forall k :: 1 <= k < n ==> h[k] == h[1..][k - 1];
    if i < |h| {
      var j :| i < j <= |h| && SpaceRun(h, i, j) && '\n' !in h[j..];
      assert IsSpace(h[i]);
    }
    if n < |h| {
      assert h[n] == h[1..][n - 1];
    }
  }

  // ---------------------------------------------------------------------
  // normalize_fasta_header (lines 18-39)

  function Normalize(header: string): (r: Result<string, HeaderError>) {
    var h := RStrip(header, LineEnds);
    match UniProtGroups(h)
    case Some((id, rest)) => Ok(">" + id + " " + rest)
    case None => if '|' !in h && IsUniversal(h) then Ok(h) else Err(Unsupported(h))
  }

  /** A UniProt header becomes `>ID rest`. */
  lemma NormalizeUniProt(header: string, j: int)
    requires UniProtAt(RStrip(header, LineEnds), j)
    ensures var h := RStrip(header, LineEnds);
            Normalize(header) == Ok(">" + h[4..j] + " " + h[j + 1..])
  {
  }

  /** A header without `|` that matches the universal pattern comes back
      unchanged (without its trailing newline), and is then a fixed point. */
  lemma NormalizeUniversal(header: string, i: int)
    requires '|' !in RStrip(header, LineEnds) && UniversalAt(RStrip(header, LineEnds), i)
    ensures Normalize(header) == Ok(RStrip(header, LineEnds))
    ensures Normalize(Normalize(header).value) == Normalize(header)
  {
    var h := RStrip(header, LineEnds);
    UniversalMatches(h);
    assert !StartsWith(h, ">sp|") && !StartsWith(h, ">tr|") by {
      if |h| >= 4 { assert h[3] in h; }
    }
    assert RStrip(h, LineEnds) == h by {
      assert TrailingIn(h, LineEnds) == 0;
    }
  }

  /** Every other header is refused, and the error carries the stripped
      header. */
  lemma NormalizeRefuses(header: string)
    ensures var h := RStrip(header, LineEnds);
            Normalize(header).Err? <==>
              (forall j :: !UniProtAt(h, j)) && ('|' in h || forall i :: !UniversalAt(h, i))
    ensures Normalize(header).Err? ==> Normalize(header).error == Unsupported(RStrip(header, LineEnds))
  {
    UniversalMatches(RStrip(header, LineEnds));
  }

  /** Every accepted header starts with `>`, has text after it, and does
      not end in a newline or carriage return. */
  lemma NormalizeShape(header: string)
    requires Normalize(header).Ok?
    ensures var r := Normalize(header).value;
            |r| >= 2 && r[0] == '>' && r[|r| - 1] !in LineEnds
  {
    var h := RStrip(header, LineEnds);
    UniversalMatches(h);
    if UniProtGroups(h).Some? {
      var j :| UniProtAt(h, j);
      var r := Normalize(header).value;
      assert r == ">" + h[4..j] + " " + h[j + 1..];
      assert r[|r| - 1] == h[|h| - 1];
    }
  }

  /** A header that does not end in a line terminator is its own
      `rstrip('\n\r')`. */
  lemma RStripClean(h: string)
    requires |h| > 0 && h[|h| - 1] !in LineEnds
    ensures RStrip(h, LineEnds) == h
  {
  }

  /** `>` alone has no ID: refused. */
  lemma RefusesBareMarker()
    ensures Normalize(">") == Err(Unsupported(">"))
  {
    RStripClean(">");
  }

  /** `> x` has whitespace where the ID should be: refused. */
  lemma RefusesLeadingSpace()
    ensures Normalize("> x") == Err(Unsupported("> x"))
  {
    RStripClean("> x");
    assert "> x"[1..][0] == ' ';
  }

  /** `>sp|ID` lacks the second `|` and the rest: refused. */
  lemma RefusesTruncatedUniProt()
    ensures Normalize(">sp|ID") == Err(Unsupported(">sp|ID"))
  {
    RStripClean(">sp|ID");
    assert StartsWith(">sp|ID", ">sp|");
    assert ">sp|ID"[4..] == "ID";
    assert '|' in ">sp|ID" by { assert ">sp|ID"[3] == '|'; }
  }

  /** A database tag other than `sp`/`tr`, with pipes: refused. */
  lemma RefusesOtherDatabase()
    ensures Normalize(">gi|1|x") == Err(Unsupported(">gi|1|x"))
  {
    RStripClean(">gi|1|x");
    assert !StartsWith(">gi|1|x", ">sp|") && !StartsWith(">gi|1|x", ">tr|") by {
      assert ">gi|1|x"[1] == 'g';
    }
    assert '|' in ">gi|1|x" by { assert ">gi|1|x"[3] == '|'; }
  }

  /** The UniProt rewrite in terms of its parts: `>db|ID|rest` with `db`
      being `sp` or `tr`, a non-empty ID without `|` and a non-empty rest
      without newlines becomes `>ID rest`. */
  lemma NormalizeUniProtParts(db: string, id: string, rest: string)
    requires db == "sp" || db == "tr"
    requires id != [] && '|' !in id
    requires rest != [] && '\n' !in rest && rest[|rest| - 1] !in LineEnds
    ensures Normalize(">" + db + "|" + id + "|" + rest) == Ok(">" + id + " " + rest)
  {
    var h := ">" + db + "|" + id + "|" + rest;
    var j := 4 + |id|;
    RStripClean(h);
    assert h[..4] == ">" + db + "|";
    assert h[4..j] == id;
    assert h[j + 1..] == rest;
    forall k | 4 <= k < j ensures h[k] != '|' {
      assert h[k] == id[k - 4];
    }
    forall k | j < k < |h| ensures h[k] != '\n' {
      assert h[k] == rest[k - j - 1];
    }
    assert UniProtAt(h, j);
  }

  /** A rewritten UniProt header never matches the UniProt pattern again. */
  lemma RewriteNotUniProt(id: string, rest: string)
    requires id != [] && '|' !in id
    ensures var r := ">" + id + " " + rest;
            !StartsWith(r, ">sp|") && !StartsWith(r, ">tr|")
  {
    var r := ">" + id + " " + rest;
    if |id| == 1 {
      assert r[2] == ' ';
    } else if |id| == 2 {
      assert r[3] == ' ';
    } else {
      assert r[3] == id[2];
      assert id[2] in id;
    }
  }

  /** Normalisation is not idempotent: an ID that starts with whitespace is
      rewritten into a header that is itself refused. */
  lemma NotIdempotentSpacedId(db: string, id: string, rest: string)
    requires db == "sp" || db == "tr"
    requires id != [] && '|' !in id && IsSpace(id[0])
    requires rest != [] && '\n' !in rest && rest[|rest| - 1] !in LineEnds
    ensures Normalize(">" + db + "|" + id + "|" + rest) == Ok(">" + id + " " + rest)
    ensures Normalize(">" + id + " " + rest).Err?
  {
    NormalizeUniProtParts(db, id, rest);
    var r := ">" + id + " " + rest;
    RStripClean(r);
    RewriteNotUniProt(id, rest);
    assert r[1..][0] == id[0];
  }

  /** Likewise a rest containing `|`: the rewritten header has a `|` but is
      not a UniProt header, so it is refused. */
  lemma NotIdempotentPipedRest(db: string, id: string, rest: string)
    requires db == "sp" || db == "tr"
    requires id != [] && '|' !in id
    requires rest != [] && '\n' !in rest && rest[|rest| - 1] !in LineEnds && '|' in rest
    ensures Normalize(">" + db + "|" + id + "|" + rest) == Ok(">" + id + " " + rest)
    ensures Normalize(">" + id + " " + rest).Err?
  {
    NormalizeUniProtParts(db, id, rest);
    var r := ">" + id + " " + rest;
    RStripClean(r);
    RewriteNotUniProt(id, rest);
    var k :| 0 <= k < |rest| && rest[k] == '|';
    assert r[|id| + 2 + k] == rest[k];
    assert '|' in r;
    assert UniProtGroups(r).None?;
  }

  // ---------------------------------------------------------------------
  // The rewriting loop (lines 55-61)

  /** What the loop writes for one input line (which carries its own line
      terminator, as file iteration yields it). */
  function RewriteLine(line: string): (r: Result<string, HeaderError>) {
    if StartsWith(line, ">") then
      match Normalize(line)
      case Ok(h) => Ok(h + "\n")
      case Err(e) => Err(e)
    else Ok(line)
  }

  /** Rewrites the lines in order; a refused header stops the loop with the
      lines written before it. */
  method RewriteFasta(lines: seq<string>) returns (out: seq<string>, err: Option<HeaderError>)
    ensures |out| <= |lines|
    ensures forall k :: 0 <= k < |out| ==> RewriteLine(lines[k]) == Ok(out[k])
    ensures err.None? <==> |out| == |lines|
    ensures err.Some? ==> RewriteLine(lines[|out|]) == Err(err.value)
  {
    out := [];
    var i := 0;
    while i < |lines|
      invariant i <= |lines| && |out| == i
      invariant forall k :: 0 <= k < i ==> RewriteLine(lines[k]) == Ok(out[k])
    {
      var line := lines[i];
      if StartsWith(line, ">") {
        var h := Normalize(line);
        if h.Err? {
          return out, Some(h.error);
        }
        out := out + [h.value + "\n"];
      } else {
        out := out + [line];
      }
      i := i + 1;
    }
    err := None;
  }

  /** A line that is not a header is copied as it is; a header is written
      as a `>` line that ends in exactly one newline. */
  lemma RewriteLineCases(line: string)
    ensures !StartsWith(line, ">") ==> RewriteLine(line) == Ok(line)
    ensures StartsWith(line, ">") && RewriteLine(line).Ok? ==>
              var r := RewriteLine(line).value;
              |r| >= 3 && r[0] == '>' && r[|r| - 1] == '\n' && r[|r| - 2] !in LineEnds
  {
    if StartsWith(line, ">") && RewriteLine(line).Ok? {
      NormalizeShape(line);
    }
  }
}
