/** The hash-chained journal and its verifier (worker/src/audit.ts, `verifyChain`).
  *
  * SHA-256 is a parameter `sha`, any function whose digests are 64 characters long.
  * Nothing assumes it to be collision free: each result that rests on that says what
  * the forger would have had to find instead. */
module HashChain {
  /** One exported journal row; `num` is the source's `seq` column. */
  datatype Entry = Entry(
    num: int, agentId: string, epoch: int, kind: string,
    payload: string, prevHash: string, hash: string, at: int)

  datatype Finding =
    | Gap(at: int, missing: int)
    | BrokenLink(at: int)
    | EditedPayload(at: int)

  const GENESIS := "0000000000000000000000000000000000000000000000000000000000000000"

  function LinkHash(sha: string -> string, prevHash: string, payload: string): string {
    sha(prevHash + payload)
  }

  /** Walk the chain, reporting every break rather than the first. */
  method VerifyChain(sha: string -> string, entries: seq<Entry>) returns (findings: seq<Finding>)
    ensures findings == Findings(sha, entries)
  {
    findings := [];
    var expectedPrev := GENESIS;
    var lastNum := 0;
    for i := 0 to |entries|
      invariant i > 0 ==> lastNum == entries[i - 1].num
      invariant expectedPrev == if i == 0 then GENESIS else entries[i - 1].hash
      invariant findings == Findings(sha, entries[..i])
    {
      var e := entries[i];
      ghost var before := findings;
      if i > 0 && e.num != lastNum + 1 {
        findings := findings + [Gap(e.num, e.num - lastNum - 1)];
        expectedPrev := e.prevHash;  // re-anchor so one gap does not cascade
      }
      if e.prevHash != expectedPrev {
        findings := findings + [BrokenLink(e.num)];
      }
      if LinkHash(sha, e.prevHash, e.payload) != e.hash {
        findings := findings + [EditedPayload(e.num)];
      }
      expectedPrev := e.hash;
      lastNum := e.num;
      assert entries[..i + 1][..i] == entries[..i];
      assert findings == before + EntryFindings(sha, entries, i);
      EntryFindingsArePrefixLocal(sha, entries, i);
    }
    assert entries[..|entries|] == entries;
  }

  // ── what each entry is answerable for, judged against its neighbour alone ──

  predicate Skips(entries: seq<Entry>, i: nat)
    requires i < |entries|
  {
    i > 0 && entries[i].num != entries[i - 1].num + 1
  }

  predicate Follows(entries: seq<Entry>, i: nat)
    requires i < |entries|
  {
    entries[i].prevHash == if i == 0 then GENESIS else entries[i - 1].hash
  }

  predicate Sealed(sha: string -> string, e: Entry) {
    LinkHash(sha, e.prevHash, e.payload) == e.hash
  }

  function EntryFindings(sha: string -> string, entries: seq<Entry>, i: nat): seq<Finding>
    requires i < |entries|
  {
    var e := entries[i];
    (if Skips(entries, i) then [Gap(e.num, e.num - entries[i - 1].num - 1)]
     else if Follows(entries, i) then [] else [BrokenLink(e.num)]) +
    (if Sealed(sha, e) then [] else [EditedPayload(e.num)])
  }

  function Findings(sha: string -> string, entries: seq<Entry>): seq<Finding> {
    if entries == [] then []
    else Findings(sha, entries[..|entries| - 1]) + EntryFindings(sha, entries, |entries| - 1)
  }

  lemma EntryFindingsArePrefixLocal(sha: string -> string, entries: seq<Entry>, i: nat)
    requires i < |entries|
    ensures EntryFindings(sha, entries[..i + 1], i) == EntryFindings(sha, entries, i)
  {
  }

  predicate Sound(sha: string -> string, entries: seq<Entry>, i: nat)
    requires i < |entries|
  {
    !Skips(entries, i) && Follows(entries, i) && Sealed(sha, entries[i])
  }

  /** A chain from GENESIS with consecutive numbers and every row sealed. */
  predicate Clean(sha: string -> string, entries: seq<Entry>) {
    forall i | 0 <= i < |entries| :: Sound(sha, entries, i)
  }

  lemma SoundIsLocal(sha: string -> string, entries: seq<Entry>, n: nat, i: nat)
    requires i < n <= |entries|
    ensures Sound(sha, entries[..n], i) == Sound(sha, entries, i)
    ensures EntryFindings(sha, entries[..n], i) == EntryFindings(sha, entries, i)
  {
    assert entries[..n][i] == entries[i];
    assert i > 0 ==> entries[..n][i - 1] == entries[i - 1];
  }

  lemma CleanOneMore(sha: string -> string, entries: seq<Entry>)
    requires entries != []
    ensures Clean(sha, entries) <==> Clean(sha, entries[..|entries| - 1]) && Sound(sha, entries, |entries| - 1)
  {
    var n := |entries| - 1;
    if Clean(sha, entries) {
      CleanPrefix(sha, entries, n);
    }
    if Clean(sha, entries[..n]) && Sound(sha, entries, n) {
      forall i | 0 <= i < |entries|
        ensures Sound(sha, entries, i)
      {
        if i < n { SoundIsLocal(sha, entries, n, i); }
      }
    }
  }

  lemma SoundIffNoFinding(sha: string -> string, entries: seq<Entry>, i: nat)
    requires i < |entries|
    ensures Sound(sha, entries, i) <==> EntryFindings(sha, entries, i) == []
  {
  }

  /** No finding exactly when the export is a clean chain. */
  lemma {:induction false} NoFindingsIffClean(sha: string -> string, entries: seq<Entry>)
    ensures Findings(sha, entries) == [] <==> Clean(sha, entries)
  {
    if entries != [] {
      NoFindingsIffClean(sha, entries[..|entries| - 1]);
      CleanOneMore(sha, entries);
      SoundIffNoFinding(sha, entries, |entries| - 1);
    }
  }

  /** Some row up to `n` is the reason for the finding. */
  ghost predicate Reported(sha: string -> string, entries: seq<Entry>, n: nat, f: Finding)
    requires n <= |entries|
  {
    exists i | 0 <= i < n :: f in EntryFindings(sha, entries, i)
  }

  lemma ReportedInPrefix(sha: string -> string, entries: seq<Entry>, n: nat, f: Finding)
    requires n <= |entries|
    ensures Reported(sha, entries[..n], n, f) <==> Reported(sha, entries, n, f)
  {
    forall i: nat | i < n
      ensures EntryFindings(sha, entries[..n], i) == EntryFindings(sha, entries, i)
    {
      SoundIsLocal(sha, entries, n, i);
    }
  }

  lemma ReportedOneMore(sha: string -> string, entries: seq<Entry>, n: nat, f: Finding)
    requires n < |entries|
    ensures Reported(sha, entries, n + 1, f) <==> Reported(sha, entries, n, f) || f in EntryFindings(sha, entries, n)
  {
  }

  lemma {:induction false} FoundIffReported(sha: string -> string, entries: seq<Entry>, f: Finding)
    ensures f in Findings(sha, entries) <==> Reported(sha, entries, |entries|, f)
  {
    if entries != [] {
      var n := |entries| - 1;
      FoundIffReported(sha, entries[..n], f);
      ReportedInPrefix(sha, entries, n, f);
      ReportedOneMore(sha, entries, n, f);
    }
  }

  /** What row i has to be for a finding to be about it, in the columns themselves. */
  ghost predicate Shows(sha: string -> string, entries: seq<Entry>, i: nat, f: Finding)
    requires i < |entries|
  {
    var e := entries[i];
    match f
    case Gap(at, missing) =>
      i > 0 && at == e.num && missing != 0 && e.num == entries[i - 1].num + missing + 1
    case BrokenLink(at) =>
      at == e.num && (if i == 0 then e.prevHash != GENESIS
                      else e.num == entries[i - 1].num + 1 && e.prevHash != entries[i - 1].hash)
    case EditedPayload(at) => at == e.num && sha(e.prevHash + e.payload) != e.hash
  }

  lemma ShownAtTheRow(sha: string -> string, entries: seq<Entry>, i: nat, f: Finding)
    requires i < |entries|
    ensures f in EntryFindings(sha, entries, i) <==> Shows(sha, entries, i, f)
  {
  }

  /** Every break is reported with its extent, and nothing else is: a gap says how many
    * numbers it skips, a broken link stands between two consecutive rows (or before the
    * first), an edited payload does not hash to what its row says. */
  lemma EveryBreakIsReported(sha: string -> string, entries: seq<Entry>, f: Finding)
    ensures f in Findings(sha, entries) <==> exists i | 0 <= i < |entries| :: Shows(sha, entries, i, f)
  {
    FoundIffReported(sha, entries, f);
    forall i: nat | i < |entries|
      ensures f in EntryFindings(sha, entries, i) <==> Shows(sha, entries, i, f)
    {
      ShownAtTheRow(sha, entries, i, f);
    }
  }

  // ── what the last hash commits to ──────────────────────────────────────────

  ghost predicate FixedLength(sha: string -> string) {
    forall x: string :: |sha(x)| == |GENESIS|
  }

  /** What was fed to SHA-256 for row i. */
  function Preimage(entries: seq<Entry>, i: nat): string
    requires i < |entries|
  {
    entries[i].prevHash + entries[i].payload
  }

  ghost predicate CollisionBetween(sha: string -> string, a: seq<Entry>, b: seq<Entry>) {
    exists i, j | 0 <= i < |a| && 0 <= j < |b| ::
      Preimage(a, i) != Preimage(b, j) && sha(Preimage(a, i)) == sha(Preimage(b, j))
  }

  ghost predicate GenesisReached(sha: string -> string, a: seq<Entry>) {
    exists i | 0 <= i < |a| :: sha(Preimage(a, i)) == GENESIS
  }

  predicate SameHistory(a: seq<Entry>, b: seq<Entry>) {
    |a| == |b| && forall i | 0 <= i < |a| :: a[i].payload == b[i].payload && a[i].prevHash == b[i].prevHash
  }

  lemma CleanPrefix(sha: string -> string, a: seq<Entry>, n: nat)
    requires Clean(sha, a) && n <= |a|
    ensures Clean(sha, a[..n])
  {
    forall i | 0 <= i < n
      ensures Sound(sha, a[..n], i)
    {
      assert Sound(sha, a, i);
    }
  }

  /** One row back from the end. */
  lemma StepBack(sha: string -> string, a: seq<Entry>, m: nat)
    requires Clean(sha, a) && 0 < m < |a|
    ensures a[m - 1].hash == a[m].prevHash && sha(Preimage(a, m - 1)) == a[m].prevHash
  {
    assert Sound(sha, a, m) && Sound(sha, a, m - 1);
  }

  lemma LastRows(sha: string -> string, a: seq<Entry>, b: seq<Entry>)
    requires FixedLength(sha) && Clean(sha, a) && Clean(sha, b)
    requires a != [] && b != [] && a[|a| - 1].hash == b[|b| - 1].hash
    ensures || CollisionBetween(sha, a, b)
            || (a[|a| - 1].prevHash == b[|b| - 1].prevHash && a[|a| - 1].payload == b[|b| - 1].payload)
  {
    var m, n := |a| - 1, |b| - 1;
    assert Sound(sha, a, m) && Sound(sha, b, n);
    assert m > 0 ==> Sound(sha, a, m - 1);
    assert n > 0 ==> Sound(sha, b, n - 1);
    if Preimage(a, m) == Preimage(b, n) {
      SamePreimage(sha, a, b, m, n);
    }
  }

  /** Two clean exports ending in the same hash tell the same history, row for row,
    * unless somebody holds a SHA-256 collision between them or a preimage of GENESIS. */
  lemma {:induction false} LastHashCommitsToHistory(sha: string -> string, a: seq<Entry>, b: seq<Entry>)
    requires FixedLength(sha) && Clean(sha, a) && Clean(sha, b)
    requires a != [] && b != [] && a[|a| - 1].hash == b[|b| - 1].hash
    ensures SameHistory(a, b) || CollisionBetween(sha, a, b) || GenesisReached(sha, a) || GenesisReached(sha, b)
  {
    var m, n := |a| - 1, |b| - 1;
    LastRows(sha, a, b);
    if CollisionBetween(sha, a, b) { return; }
    if m > 0 { StepBack(sha, a, m); }
    if n > 0 { StepBack(sha, b, n); }
    if m > 0 && n > 0 {
      CleanPrefix(sha, a, m);
      CleanPrefix(sha, b, n);
      LastHashCommitsToHistory(sha, a[..m], b[..n]);
      LiftCollision(sha, a, b, m, n);
      LiftGenesis(sha, a, m);
      LiftGenesis(sha, b, n);
    } else if m > 0 {
      assert Sound(sha, b, n);
    } else if n > 0 {
      assert Sound(sha, a, m);
    }
  }

  lemma SamePreimage(sha: string -> string, a: seq<Entry>, b: seq<Entry>, m: nat, n: nat)
    requires FixedLength(sha) && m < |a| && n < |b| && Sound(sha, a, m) && Sound(sha, b, n)
    requires m > 0 ==> Sound(sha, a, m - 1)
    requires n > 0 ==> Sound(sha, b, n - 1)
    requires Preimage(a, m) == Preimage(b, n)
    ensures a[m].prevHash == b[n].prevHash && a[m].payload == b[n].payload
  {
    SplitConcat(a[m].prevHash, a[m].payload, b[n].prevHash, b[n].payload);
  }

  lemma SplitConcat(p: string, x: string, q: string, y: string)
    requires |p| == |q| && p + x == q + y
    ensures p == q && x == y
  {
    assert p == (p + x)[..|p|] && q == (q + y)[..|q|];
    assert x == (p + x)[|p|..] && y == (q + y)[|q|..];
  }

  lemma LiftCollision(sha: string -> string, a: seq<Entry>, b: seq<Entry>, m: nat, n: nat)
    requires m <= |a| && n <= |b|
    ensures CollisionBetween(sha, a[..m], b[..n]) ==> CollisionBetween(sha, a, b)
  {
    if CollisionBetween(sha, a[..m], b[..n]) {
      var i, j :| 0 <= i < m && 0 <= j < n && Preimage(a[..m], i) != Preimage(b[..n], j) &&
                  sha(Preimage(a[..m], i)) == sha(Preimage(b[..n], j));
      assert Preimage(a, i) == Preimage(a[..m], i) && Preimage(b, j) == Preimage(b[..n], j);
    }
  }

  lemma LiftGenesis(sha: string -> string, a: seq<Entry>, m: nat)
    requires m <= |a|
    ensures GenesisReached(sha, a[..m]) ==> GenesisReached(sha, a)
  {
    if GenesisReached(sha, a[..m]) {
      var i :| 0 <= i < m && sha(Preimage(a[..m], i)) == GENESIS;
      assert Preimage(a, i) == Preimage(a[..m], i);
    }
  }

  // ── what removal and editing leave behind ──────────────────────────────────

  /** Rows cut from the middle leave a gap in the numbers where they were. */
  lemma CutMiddleSkips(sha: string -> string, e: seq<Entry>, i: nat, j: nat)
    requires Clean(sha, e) && 0 < i < j < |e|
    ensures !Clean(sha, e[..i] + e[j..])
  {
    var rest := e[..i] + e[j..];
    NumbersAreConsecutive(sha, e, i - 1, j);
    assert rest[i] == e[j] && rest[i - 1] == e[i - 1];
    assert !Sound(sha, rest, i);
  }

  /** Rows cut from the front are missed by the first survivor's link, unless it has none. */
  lemma CutFrontUnlinks(sha: string -> string, e: seq<Entry>, j: nat)
    requires Clean(sha, e) && 0 < j < |e|
    ensures Clean(sha, e[j..]) <==> e[j].prevHash == GENESIS
  {
    var rest := e[j..];
    if e[j].prevHash == GENESIS {
      forall k | 0 <= k < |rest|
        ensures Sound(sha, rest, k)
      {
        assert rest[k] == e[j + k] && (k > 0 ==> rest[k - 1] == e[j + k - 1]);
        assert Sound(sha, e, j + k);
      }
    } else {
      assert !Sound(sha, rest, 0);
    }
  }

  /** Cutting rows [i, j) out of a clean export stays clean exactly when they were its
    * tail, or when the first surviving row was itself linked to GENESIS. */
  lemma RemovalIsVisible(sha: string -> string, e: seq<Entry>, i: nat, j: nat)
    requires Clean(sha, e) && i < j <= |e|
    ensures Findings(sha, e[..i] + e[j..]) == [] <==> j == |e| || (i == 0 && e[j].prevHash == GENESIS)
  {
    NoFindingsIffClean(sha, e[..i] + e[j..]);
    if j == |e| {
      assert e[..i] + e[j..] == e[..i];
      CleanPrefix(sha, e, i);
    } else if i > 0 {
      CutMiddleSkips(sha, e, i, j);
    } else {
      assert e[..0] + e[j..] == e[j..];
      CutFrontUnlinks(sha, e, j);
    }
  }

  lemma {:induction false} NumbersAreConsecutive(sha: string -> string, e: seq<Entry>, i: nat, j: nat)
    requires Clean(sha, e) && i <= j < |e|
    ensures e[j].num == e[i].num + (j - i)
  {
    if i < j {
      NumbersAreConsecutive(sha, e, i, j - 1);
      assert Sound(sha, e, j);
    }
  }

  /** Rewriting one payload without resealing is reported, alone and at its own row,
    * unless the new payload collides with the old one. */
  lemma EditIsVisible(sha: string -> string, e: seq<Entry>, i: nat, payload: string)
    requires Clean(sha, e) && i < |e|
    ensures Findings(sha, e[i := e[i].(payload := payload)]) ==
            if sha(e[i].prevHash + payload) == e[i].hash then [] else [EditedPayload(e[i].num)]
  {
    EditUpTo(sha, e, i, payload, |e|);
    assert e[..|e|] == e;
  }

  lemma FindingsOneMore(sha: string -> string, entries: seq<Entry>, n: nat)
    requires 0 < n <= |entries|
    ensures Findings(sha, entries[..n]) == Findings(sha, entries[..n - 1]) + EntryFindings(sha, entries, n - 1)
  {
    assert entries[..n][..n - 1] == entries[..n - 1];
    EntryFindingsArePrefixLocal(sha, entries, n - 1);
  }

  lemma EditedRow(sha: string -> string, e: seq<Entry>, i: nat, payload: string, k: nat)
    requires Clean(sha, e) && i < |e| && k < |e|
    ensures EntryFindings(sha, e[i := e[i].(payload := payload)], k) ==
            if k != i || sha(e[i].prevHash + payload) == e[i].hash then [] else [EditedPayload(e[i].num)]
  {
    assert Sound(sha, e, k);
  }

  lemma {:induction false} EditUpTo(sha: string -> string, e: seq<Entry>, i: nat, payload: string, n: nat)
    requires Clean(sha, e) && i < |e| && n <= |e|
    ensures var x := e[i := e[i].(payload := payload)];
            Findings(sha, x[..n]) ==
            if n <= i || sha(e[i].prevHash + payload) == e[i].hash then [] else [EditedPayload(e[i].num)]
  {
    if n > 0 {
      EditUpTo(sha, e, i, payload, n - 1);
      FindingsOneMore(sha, e[i := e[i].(payload := payload)], n);
      EditedRow(sha, e, i, payload, n - 1);
    }
  }

  predicate SameLinks(a: Entry, b: Entry) {
    a.num == b.num && a.payload == b.payload && a.prevHash == b.prevHash && a.hash == b.hash
  }

  /** The limit of the claim: kind, time, agent and epoch are outside the hash, so
    * rewriting them never changes a verdict. */
  lemma {:induction false} UnhashedColumnsAreNotCovered(sha: string -> string, a: seq<Entry>, b: seq<Entry>)
    requires |a| == |b| && forall i | 0 <= i < |a| :: SameLinks(a[i], b[i])
    ensures Findings(sha, a) == Findings(sha, b)
  {
    if a != [] {
      var n := |a| - 1;
      UnhashedColumnsAreNotCovered(sha, a[..n], b[..n]);
      assert SameLinks(a[n], b[n]) && (n > 0 ==> SameLinks(a[n - 1], b[n - 1]));
    }
  }
}
