/** Which tenant each smart account belongs to: merge every claim observed, or refuse
  * (worker/src/account-claim.ts). */
module AccountClaim {
  import opened Text
  import Sorting

  datatype Source = IdentityHistory | InstalledGrant | ExistingClaim

  datatype Claim = Claim(account: string, tenant: string, source: Source)

  datatype Insert = Insert(account: string, tenant: string)

  datatype Conflict = Conflict(account: string, tenants: seq<string>, sources: set<Source>)

  datatype ClaimPlan =
    | Accepted(insert: seq<Insert>, alreadyHeld: nat)
    | Refused(conflicts: seq<Conflict>)

  function Norm(s: string): string {
    Lower(Trim(s))
  }

  // ── string order ───────────────────────────────────────────────────────────

  /** `<=` on strings, code unit by code unit. */
  predicate AtMost(a: string, b: string) {
    if a == "" then true
    else if b == "" then false
    else a[0] < b[0] || (a[0] == b[0] && AtMost(a[1..], b[1..]))
  }

  predicate Below(a: string, b: string) {
    a != b && AtMost(a, b)
  }

  lemma {:induction false} AtMostIsTotal(a: string, b: string)
    ensures AtMost(a, b) || AtMost(b, a)
    ensures AtMost(a, b) && AtMost(b, a) ==> a == b
  {
    if a != "" && b != "" {
      AtMostIsTotal(a[1..], b[1..]);
      assert a == [a[0]] + a[1..] && b == [b[0]] + b[1..];
    }
  }

  lemma {:induction false} AtMostIsTransitive(a: string, b: string, c: string)
    requires AtMost(a, b) && AtMost(b, c)
    ensures AtMost(a, c)
  {
    if a != "" && a[0] == b[0] == c[0] {
      AtMostIsTransitive(a[1..], b[1..], c[1..]);
    }
  }

  lemma AtMostIsAnOrder()
    ensures Sorting.TotalOrder(AtMost)
  {
    forall a, b
      ensures AtMost(a, b) || AtMost(b, a)
    {
      AtMostIsTotal(a, b);
    }
    forall a, b, c | AtMost(a, b) && AtMost(b, c)
      ensures AtMost(a, c)
    {
      AtMostIsTransitive(a, b, c);
    }
  }

  /** They agree up to place k, and there the first has ended or has the smaller unit. */
  predicate DifferAt(a: string, b: string, k: nat) {
    k <= |a| && k < |b| && a[..k] == b[..k] && (k == |a| || a[k] < b[k])
  }

  /** One string is below another exactly when it is a proper prefix of it or has the smaller
    * unit at the first place they differ. */
  lemma {:induction false} BelowIff(a: string, b: string)
    ensures Below(a, b) <==> exists k: nat :: DifferAt(a, b, k)
  {
    if a == "" {
      assert b != "" ==> DifferAt(a, b, 0);
    } else if b != "" {
      BelowIff(a[1..], b[1..]);
      assert a == [a[0]] + a[1..] && b == [b[0]] + b[1..];
      if k: nat :| DifferAt(a[1..], b[1..], k) && a[0] == b[0] {
        assert a[..k + 1] == [a[0]] + a[1..][..k] && b[..k + 1] == [b[0]] + b[1..][..k];
        assert DifferAt(a, b, k + 1);
      }
      if a[0] < b[0] {
        assert DifferAt(a, b, 0);
      }
      if k: nat :| DifferAt(a, b, k) && k > 0 {
        assert a[0] == a[..k][0] == b[..k][0] == b[0];
        assert a[1..][..k - 1] == a[..k][1..] && b[1..][..k - 1] == b[..k][1..];
        assert DifferAt(a[1..], b[1..], k - 1);
      }
    }
  }

  // ── normal form ────────────────────────────────────────────────────────────

  predicate Bare(s: string) {
    s != "" ==> !Blank(s[0]) && !Blank(s[|s| - 1])
  }

  lemma {:induction false} TrimLeftBares(s: string)
    ensures TrimLeft(s) != "" ==> !Blank(TrimLeft(s)[0])
  {
    if s != "" && Blank(s[0]) { TrimLeftBares(s[1..]); }
  }

  lemma {:induction false} TrimRightBares(s: string)
    ensures TrimRight(s) != "" ==> !Blank(TrimRight(s)[|TrimRight(s)| - 1])
    ensures TrimRight(s) != "" ==> TrimRight(s)[0] == s[0]
  {
    if s != "" && Blank(s[|s| - 1]) { TrimRightBares(s[..|s| - 1]); }
  }

  /** Normalising twice is normalising once. */
  lemma NormTwice(s: string)
    ensures Norm(Norm(s)) == Norm(s)
  {
    TrimLeftBares(s);
    TrimRightBares(TrimLeft(s));
    assert Bare(Trim(s));
    var n := Norm(s);
    assert n != "" ==> n[0] == LowerChar(Trim(s)[0]) && n[|n| - 1] == LowerChar(Trim(s)[|n| - 1]);
    assert Bare(n);
    assert Trim(n) == n;
    LowerTwice(Trim(s));
  }

  // ── the claims there are ───────────────────────────────────────────────────

  predicate Stated(c: Claim) {
    Norm(c.account) != "" && Norm(c.tenant) != ""
  }

  /** The claims, normalised; a blank account or tenant claims nothing. */
  function Pairs(claims: seq<Claim>): set<Insert> {
    set i | 0 <= i < |claims| && Stated(claims[i]) :: Insert(Norm(claims[i].account), Norm(claims[i].tenant))
  }

  function Tenants(claims: seq<Claim>, account: string): set<string> {
    set i | 0 <= i < |claims| && Stated(claims[i]) && Norm(claims[i].account) == account :: Norm(claims[i].tenant)
  }

  function Sources(claims: seq<Claim>, account: string): set<Source> {
    set i | 0 <= i < |claims| && Stated(claims[i]) && Norm(claims[i].account) == account :: claims[i].source
  }

  /** Accounts an existing row holds, whatever its tenant. */
  function Held(existing: seq<Claim>): set<string> {
    set i | 0 <= i < |existing| && Norm(existing[i].account) != "" :: Norm(existing[i].account)
  }

  /** Two tenants claim one account. */
  predicate Disputed(p: Insert, q: Insert, pairs: set<Insert>) {
    p in pairs && q in pairs && p.account == q.account && p.tenant != q.tenant
  }

  /** No account is claimed by two tenants. */
  ghost predicate Functional(pairs: set<Insert>) {
    forall p, q :: !Disputed(p, q, pairs)
  }

  // ── the plan ───────────────────────────────────────────────────────────────

  /** The rows to write: strictly ordered by account, and exactly the claims not held yet. */
  ghost predicate IsInsertList(insert: seq<Insert>, pairs: set<Insert>, held: set<string>) {
    && Sorting.Sorted(insert, StrictlyByAccount)
    && forall p :: p in insert <==> p in pairs && p.account !in held
  }

  ghost predicate Contested(account: string, pairs: set<Insert>) {
    exists p, q :: Disputed(p, q, pairs) && p.account == account
  }

  /** An account claimed by two tenants, and every tenant that claims it. */
  ghost predicate IsConflict(c: Conflict, pairs: set<Insert>) {
    && Contested(c.account, pairs)
    && Sorting.Sorted(c.tenants, Below)
    && (forall t :: t in c.tenants <==> Insert(c.account, t) in pairs)
  }

  predicate OncePerAccount(conflicts: seq<Conflict>) {
    forall i, j | 0 <= i < j < |conflicts| :: conflicts[i].account != conflicts[j].account
  }

  /** What a plan over these claims and these held accounts has to say. */
  ghost predicate Decides(pairs: set<Insert>, held: set<string>, plan: ClaimPlan) {
    match plan
    case Accepted(insert, alreadyHeld) =>
      Functional(pairs) && IsInsertList(insert, pairs, held) && alreadyHeld == |held|
    case Refused(conflicts) =>
      && conflicts != [] && OncePerAccount(conflicts)
      && (forall c <- conflicts :: IsConflict(c, pairs))
      && (forall a | Contested(a, pairs) :: exists c <- conflicts :: c.account == a)
  }

  ghost predicate IsPlan(observed: seq<Claim>, existing: seq<Claim>, plan: ClaimPlan) {
    && Decides(Pairs(existing + observed), Held(existing), plan)
    && (plan.Refused? ==> forall c <- plan.conflicts :: c.sources == Sources(existing + observed, c.account))
  }

  /** What has been gathered for one account: its tenants in the order first seen. */
  datatype Entry = Entry(tenants: seq<string>, sources: set<Source>)

  ghost predicate EntryIs(claims: seq<Claim>, a: string, e: Entry) {
    && e.tenants != [] && Sorting.Distinct(e.tenants)
    && (forall t :: t in e.tenants <==> t in Tenants(claims, a))
    && e.sources == Sources(claims, a)
  }

  ghost predicate Gathered(claims: seq<Claim>, order: seq<string>, byAccount: map<string, Entry>) {
    && Sorting.Distinct(order) && (forall a :: a in order <==> a in byAccount)
    && (forall a | a !in byAccount :: Tenants(claims, a) == {})
    && (forall a <- byAccount :: EntryIs(claims, a, byAccount[a]))
  }

  lemma OneMoreClaim(claims: seq<Claim>, c: Claim, a: string)
    requires Stated(c) && Norm(c.account) == a
    ensures Tenants(claims + [c], a) == Tenants(claims, a) + {Norm(c.tenant)}
    ensures Sources(claims + [c], a) == Sources(claims, a) + {c.source}
  {
    var more := claims + [c];
    assert forall i | 0 <= i < |claims| :: more[i] == claims[i];
    assert more[|claims|] == c;
  }

  lemma ClaimOfAnother(claims: seq<Claim>, c: Claim, a: string)
    requires !Stated(c) || Norm(c.account) != a
    ensures Tenants(claims + [c], a) == Tenants(claims, a)
    ensures Sources(claims + [c], a) == Sources(claims, a)
  {
    var more := claims + [c];
    assert forall i | 0 <= i < |claims| :: more[i] == claims[i];
    assert more[|claims|] == c;
  }

  lemma SourcesHaveTenants(claims: seq<Claim>, a: string)
    ensures Sources(claims, a) != {} ==> Tenants(claims, a) != {}
  {
    if s :| s in Sources(claims, a) {
      var i :| 0 <= i < |claims| && Stated(claims[i]) && Norm(claims[i].account) == a;
      assert Norm(claims[i].tenant) in Tenants(claims, a);
    }
  }

  function Joined(e: Entry, tenant: string, source: Source): Entry {
    Entry(if tenant in e.tenants then e.tenants else e.tenants + [tenant], e.sources + {source})
  }

  lemma JoiningIsRight(claims: seq<Claim>, c: Claim, byAccount: map<string, Entry>)
    requires Stated(c)
    requires Norm(c.account) in byAccount ==> EntryIs(claims, Norm(c.account), byAccount[Norm(c.account)])
    requires Norm(c.account) !in byAccount ==> Tenants(claims, Norm(c.account)) == {}
    ensures var a := Norm(c.account);
            EntryIs(claims + [c], a, Joined(if a in byAccount then byAccount[a] else Entry([], {}), Norm(c.tenant), c.source))
  {
    OneMoreClaim(claims, c, Norm(c.account));
    SourcesHaveTenants(claims, Norm(c.account));
  }

  lemma OthersUntouched(claims: seq<Claim>, c: Claim, byAccount: map<string, Entry>)
    ensures forall a <- byAccount | (!Stated(c) || a != Norm(c.account)) && EntryIs(claims, a, byAccount[a]) ::
              EntryIs(claims + [c], a, byAccount[a])
    ensures forall a | (!Stated(c) || a != Norm(c.account)) :: Tenants(claims + [c], a) == Tenants(claims, a)
  {
    forall a | !Stated(c) || a != Norm(c.account)
      ensures Tenants(claims + [c], a) == Tenants(claims, a) && Sources(claims + [c], a) == Sources(claims, a)
    {
      ClaimOfAnother(claims, c, a);
    }
  }

  method Gather(claims: seq<Claim>) returns (order: seq<string>, byAccount: map<string, Entry>)
    ensures Gathered(claims, order, byAccount)
  {
    order, byAccount := [], map[];
    for i := 0 to |claims|
      invariant Gathered(claims[..i], order, byAccount)
    {
      var c := claims[i];
      assert claims[..i + 1] == claims[..i] + [c];
      OthersUntouched(claims[..i], c, byAccount);
      var account, tenant := Norm(c.account), Norm(c.tenant);
      if account == "" || tenant == "" { continue; }
      JoiningIsRight(claims[..i], c, byAccount);
      var entry := if account in byAccount then byAccount[account] else Entry([], {});
      if account !in byAccount { order := order + [account]; }
      byAccount := byAccount[account := Joined(entry, tenant, c.source)];
    }
    assert claims[..|claims|] == claims;
  }

  // ── refusing, or listing the rows to write ─────────────────────────────────

  function ByAccount(a: Insert, b: Insert): bool {
    AtMost(a.account, b.account)
  }

  predicate StrictlyByAccount(a: Insert, b: Insert) {
    Below(a.account, b.account)
  }

  lemma ByAccountIsAnOrder()
    ensures Sorting.TotalOrder(ByAccount)
  {
    AtMostIsAnOrder();
  }

  /** Distinct strings in order are in strict order. */
  lemma DistinctAreStrict(s: seq<string>)
    requires Sorting.Distinct(s)
    ensures Sorting.Sorted(Sorting.SortBy(s, AtMost), Below)
    ensures forall t :: t in Sorting.SortBy(s, AtMost) <==> t in s
  {
    AtMostIsAnOrder();
    Sorting.SortBySorts(s, AtMost);
    DistinctStays(s, Sorting.SortBy(s, AtMost));
  }

  lemma Twice<T>(s: seq<T>, i: nat, j: nat)
    requires i < j < |s| && s[i] == s[j]
    ensures multiset(s)[s[i]] >= 2
  {
    assert s == s[..i] + [s[i]] + s[i + 1..j] + [s[j]] + s[j + 1..];
  }

  lemma DistinctStays<T>(s: seq<T>, r: seq<T>)
    requires Sorting.Distinct(s) && multiset(r) == multiset(s)
    ensures Sorting.Distinct(r)
  {
    forall i, j | 0 <= i < j < |r|
      ensures r[i] != r[j]
    {
      AtMostOnce(s, r[i]);
      if r[i] == r[j] { Twice(r, i, j); }
    }
  }

  lemma {:induction false} AtMostOnce<T>(s: seq<T>, x: T)
    requires Sorting.Distinct(s)
    ensures multiset(s)[x] <= 1
  {
    if s != [] {
      assert s == [s[0]] + s[1..];
      if s[0] == x {
        assert x !in s[1..];
        assert x !in multiset(s[1..]);
      }
      AtMostOnce(s[1..], x);
    }
  }

  lemma PairsAndTenants(claims: seq<Claim>)
    ensures forall a, t :: t in Tenants(claims, a) <==> Insert(a, t) in Pairs(claims)
  {
    forall a, t
      ensures t in Tenants(claims, a) <==> Insert(a, t) in Pairs(claims)
    {
      if t in Tenants(claims, a) {
        var i :| 0 <= i < |claims| && Stated(claims[i]) && Norm(claims[i].account) == a && Norm(claims[i].tenant) == t;
        assert Insert(Norm(claims[i].account), Norm(claims[i].tenant)) in Pairs(claims);
      }
      if Insert(a, t) in Pairs(claims) {
        var i :| 0 <= i < |claims| && Stated(claims[i]) && Insert(a, t) == Insert(Norm(claims[i].account), Norm(claims[i].tenant));
        assert Norm(claims[i].tenant) in Tenants(claims, a);
      }
    }
  }

  ghost predicate IsConflictOf(c: Conflict, claims: seq<Claim>, e: Entry) {
    && |e.tenants| > 1
    && Sorting.Sorted(c.tenants, Below) && (forall t :: t in c.tenants <==> t in e.tenants)
    && c.sources == e.sources
  }

  lemma ConflictIsReal(c: Conflict, claims: seq<Claim>, e: Entry)
    requires EntryIs(claims, c.account, e) && IsConflictOf(c, claims, e)
    ensures IsConflict(c, Pairs(claims)) && c.sources == Sources(claims, c.account)
  {
    PairsAndTenants(claims);
    assert Disputed(Insert(c.account, e.tenants[0]), Insert(c.account, e.tenants[1]), Pairs(claims));
  }

  /** The conflicts of the accounts looked at so far, one for each. */
  ghost predicate Listed(claims: seq<Claim>, seen: seq<string>, byAccount: map<string, Entry>, conflicts: seq<Conflict>) {
    && OncePerAccount(conflicts)
    && (forall c <- conflicts :: c.account in seen && IsConflict(c, Pairs(claims)) && c.sources == Sources(claims, c.account))
    && (forall a <- seen :: a in byAccount && |byAccount[a].tenants| > 1 ==> exists c <- conflicts :: c.account == a)
  }

  lemma ListedOneMore(
    claims: seq<Claim>, seen: seq<string>, byAccount: map<string, Entry>, conflicts: seq<Conflict>, c: Conflict)
    requires Listed(claims, seen, byAccount, conflicts) && c.account !in seen
    requires IsConflict(c, Pairs(claims)) && c.sources == Sources(claims, c.account)
    ensures Listed(claims, seen + [c.account], byAccount, conflicts + [c])
  {
    var more := conflicts + [c];
    assert more[|conflicts|] == c;
    forall k | 0 <= k < |conflicts|
      ensures conflicts[k].account != c.account
    {
      assert conflicts[k] in conflicts;
    }
    forall a <- seen + [c.account] | a in byAccount && |byAccount[a].tenants| > 1
      ensures exists d <- more :: d.account == a
    {
      if a in seen {
        var d :| d in conflicts && d.account == a;
        assert d in more;
      } else {
        assert c in more;
      }
    }
  }

  method FindConflicts(ghost claims: seq<Claim>, order: seq<string>, byAccount: map<string, Entry>)
    returns (conflicts: seq<Conflict>)
    requires Gathered(claims, order, byAccount)
    ensures Listed(claims, order, byAccount, conflicts)
    ensures conflicts == [] ==> forall a <- byAccount :: |byAccount[a].tenants| == 1
  {
    conflicts := [];
    for i := 0 to |order|
      invariant Listed(claims, order[..i], byAccount, conflicts)
    {
      assert order[..i + 1] == order[..i] + [order[i]] && order[i] !in order[..i];
      assert order[i] in byAccount;
      var entry := byAccount[order[i]];
      if |entry.tenants| > 1 {
        var c := Conflict(order[i], Sorting.SortBy(entry.tenants, AtMost), entry.sources);
        DistinctAreStrict(entry.tenants);
        ConflictIsReal(c, claims, entry);
        ListedOneMore(claims, order[..i], byAccount, conflicts, c);
        conflicts := conflicts + [c];
      }
    }
    assert order[..|order|] == order;
    assert forall a <- byAccount :: a in order && EntryIs(claims, a, byAccount[a]);
  }

  /** Two claimants of one account share its entry. */
  lemma DisputesAreSeen(claims: seq<Claim>, order: seq<string>, byAccount: map<string, Entry>, p: Insert, q: Insert)
    requires Gathered(claims, order, byAccount) && Disputed(p, q, Pairs(claims))
    ensures p.account in byAccount && |byAccount[p.account].tenants| > 1
  {
    PairsAndTenants(claims);
    assert p.tenant in Tenants(claims, p.account) && q.tenant in Tenants(claims, p.account);
    assert EntryIs(claims, p.account, byAccount[p.account]);
  }

  method ListInserts(ghost claims: seq<Claim>, order: seq<string>, byAccount: map<string, Entry>, held: set<string>)
    returns (insert: seq<Insert>)
    requires Gathered(claims, order, byAccount) && forall a <- byAccount :: |byAccount[a].tenants| == 1
    ensures forall p :: p in insert <==> p in Pairs(claims) && p.account !in held
    ensures forall i, j | 0 <= i < j < |insert| :: insert[i].account != insert[j].account
  {
    PairsAndTenants(claims);
    insert := [];
    for i := 0 to |order|
      invariant forall p :: p in insert <==> p in Pairs(claims) && p.account !in held && p.account in order[..i]
      invariant forall i, j | 0 <= i < j < |insert| :: insert[i].account != insert[j].account
    {
      var account := order[i];
      assert order[..i + 1] == order[..i] + [account];
      assert account in byAccount && EntryIs(claims, account, byAccount[account]);
      if account in held { continue; }
      assert account !in order[..i];
      var row := Insert(account, byAccount[account].tenants[0]);
      forall j | 0 <= j < |insert|
        ensures insert[j].account != account
      {
        assert insert[j] in insert;
      }
      insert := insert + [row];
      assert forall t :: t in byAccount[account].tenants <==> t == row.tenant;
    }
    forall p | p in Pairs(claims)
      ensures p.account in order[..|order|]
    {
      assert p.tenant in Tenants(claims, p.account);
      assert order[..|order|] == order;
    }
  }

  lemma SortedInsertsAreTheList(insert: seq<Insert>, pairs: set<Insert>, held: set<string>)
    requires forall p :: p in insert <==> p in pairs && p.account !in held
    requires forall i, j | 0 <= i < j < |insert| :: insert[i].account != insert[j].account
    ensures IsInsertList(Sorting.SortBy(insert, ByAccount), pairs, held)
  {
    ByAccountIsAnOrder();
    Sorting.SortBySorts(insert, ByAccount);
    var r := Sorting.SortBy(insert, ByAccount);
    assert Sorting.Distinct(insert);
    DistinctStays(insert, r);
    forall i, j | 0 <= i < j < |r|
      ensures StrictlyByAccount(r[i], r[j])
    {
      assert ByAccount(r[i], r[j]);
      assert r[i] in insert && r[j] in insert;
    }
  }

  method PlanClaims(observed: seq<Claim>, existing: seq<Claim>) returns (plan: ClaimPlan)
    ensures IsPlan(observed, existing, plan)
  {
    ghost var claims := existing + observed;
    var order, byAccount := Gather(existing + observed);
    var conflicts := FindConflicts(claims, order, byAccount);
    forall a | Contested(a, Pairs(claims))
      ensures exists c <- conflicts :: c.account == a
    {
      var p, q :| Disputed(p, q, Pairs(claims)) && p.account == a;
      DisputesAreSeen(claims, order, byAccount, p, q);
      assert a in order;
    }
    if conflicts != [] { return Refused(conflicts); }
    forall p, q
      ensures !Disputed(p, q, Pairs(claims))
    {
      assert Disputed(p, q, Pairs(claims)) ==> Contested(p.account, Pairs(claims));
    }
    var held := Held(existing);
    var insert := ListInserts(claims, order, byAccount, held);
    SortedInsertsAreTheList(insert, Pairs(claims), held);
    plan := Accepted(Sorting.SortBy(insert, ByAccount), |held|);
  }

  // ── what a plan means ──────────────────────────────────────────────────────

  lemma SameTenants(c: Conflict, d: Conflict, pairs: set<Insert>)
    requires IsConflict(c, pairs) && IsConflict(d, pairs) && c.account == d.account
    ensures c.tenants == d.tenants
  {
    StrictOrderIsOneWay();
    Sorting.OrderedListIsUnique(c.tenants, d.tenants, Below);
  }

  lemma DecidedIffFunctional(pairs: set<Insert>, held: set<string>, plan: ClaimPlan)
    requires Decides(pairs, held, plan)
    ensures plan.Accepted? <==> Functional(pairs)
  {
    if plan.Refused? {
      assert IsConflict(plan.conflicts[0], pairs);
    }
  }

  /** A plan is accepted exactly when the claims form a function. */
  lemma AcceptedIffFunctional(observed: seq<Claim>, existing: seq<Claim>, plan: ClaimPlan)
    requires IsPlan(observed, existing, plan)
    ensures plan.Accepted? <==> Functional(Pairs(existing + observed))
  {
    DecidedIffFunctional(Pairs(existing + observed), Held(existing), plan);
  }

  /** The same claims over the same held accounts leave no choice. */
  lemma OneDecision(pairs: set<Insert>, held: set<string>, plan: ClaimPlan, other: ClaimPlan)
    requires Decides(pairs, held, plan) && Decides(pairs, held, other)
    ensures plan.Accepted? <==> other.Accepted?
    ensures plan.Accepted? ==> plan == other
    ensures plan.Refused? ==>
              forall c <- plan.conflicts :: exists d <- other.conflicts :: d.account == c.account && d.tenants == c.tenants
  {
    DecidedIffFunctional(pairs, held, plan);
    DecidedIffFunctional(pairs, held, other);
    if plan.Accepted? {
      InsertListIsUnique(plan.insert, other.insert, pairs, held);
    } else {
      SameConflicts(pairs, held, plan, other);
    }
  }

  lemma SameConflicts(pairs: set<Insert>, held: set<string>, plan: ClaimPlan, other: ClaimPlan)
    requires Decides(pairs, held, plan) && Decides(pairs, held, other) && plan.Refused? && other.Refused?
    ensures forall c <- plan.conflicts :: exists d <- other.conflicts :: d.account == c.account && d.tenants == c.tenants
  {
    forall c <- plan.conflicts
      ensures exists d <- other.conflicts :: d.account == c.account && d.tenants == c.tenants
    {
      var d :| d in other.conflicts && d.account == c.account;
      SameTenants(c, d, pairs);
    }
  }

  /** The order claims were read in, and how often, changes nothing: two readings of the same
    * claims over the same held accounts give the same rows, or refuse over the same accounts
    * naming the same tenants. */
  lemma OnlyTheClaimsMatter(
    observed: seq<Claim>, existing: seq<Claim>, plan: ClaimPlan, again: seq<Claim>, rows: seq<Claim>, other: ClaimPlan)
    requires IsPlan(observed, existing, plan) && IsPlan(again, rows, other)
    requires Pairs(existing + observed) == Pairs(rows + again) && Held(existing) == Held(rows)
    ensures plan.Accepted? <==> other.Accepted?
    ensures plan.Accepted? ==> plan == other
    ensures plan.Refused? ==>
              forall c <- plan.conflicts :: exists d <- other.conflicts :: d.account == c.account && d.tenants == c.tenants
  {
    OneDecision(Pairs(existing + observed), Held(existing), plan, other);
  }

  lemma StrictOrderIsOneWay()
    ensures forall a, b :: Below(a, b) ==> !Below(b, a)
  {
    forall a, b | Below(a, b)
      ensures !Below(b, a)
    {
      AtMostIsTotal(a, b);
    }
  }

  lemma InsertListIsUnique(a: seq<Insert>, b: seq<Insert>, pairs: set<Insert>, held: set<string>)
    requires IsInsertList(a, pairs, held) && IsInsertList(b, pairs, held)
    ensures a == b
  {
    StrictOrderIsOneWay();
    Sorting.OrderedListIsUnique(a, b, StrictlyByAccount);
  }

  // ── applying a plan, and planning again ────────────────────────────────────

  /** The rows after the plan's inserts were written. */
  function Applied(existing: seq<Claim>, insert: seq<Insert>): seq<Claim> {
    existing + Written(insert)
  }

  function Written(insert: seq<Insert>): seq<Claim> {
    seq(|insert|, i requires 0 <= i < |insert| => Claim(insert[i].account, insert[i].tenant, ExistingClaim))
  }

  predicate Normal(p: Insert) {
    Norm(p.account) == p.account != "" && Norm(p.tenant) == p.tenant != ""
  }

  lemma PairsAreNormal(claims: seq<Claim>)
    ensures forall p <- Pairs(claims) :: Normal(p)
  {
    forall i | 0 <= i < |claims|
      ensures Norm(Norm(claims[i].account)) == Norm(claims[i].account) && Norm(Norm(claims[i].tenant)) == Norm(claims[i].tenant)
    {
      NormTwice(claims[i].account);
      NormTwice(claims[i].tenant);
    }
  }

  lemma WrittenPairs(insert: seq<Insert>)
    requires forall p <- insert :: Normal(p)
    ensures Pairs(Written(insert)) == set p | p in insert
    ensures Held(Written(insert)) == set p | p in insert :: p.account
  {
    var rows := Written(insert);
    forall i | 0 <= i < |insert|
      ensures Stated(rows[i]) && Norm(rows[i].account) == insert[i].account && Norm(rows[i].tenant) == insert[i].tenant
    {
      assert insert[i] in insert;
    }
    forall p | p in insert
      ensures p in Pairs(rows) && p.account in Held(rows)
    {
      var i :| 0 <= i < |insert| && insert[i] == p;
      assert Stated(rows[i]) && Norm(rows[i].account) == p.account;
    }
  }

  /** What a written row claims is what the plan said it should. */
  lemma AppliedPairs(observed: seq<Claim>, existing: seq<Claim>, plan: ClaimPlan)
    requires IsPlan(observed, existing, plan) && plan.Accepted?
    ensures var rows := Applied(existing, plan.insert);
            && Pairs(rows) == Pairs(existing) + (set p | p in plan.insert)
            && Held(rows) == Held(existing) + (set p | p in plan.insert :: p.account)
            && Pairs(rows + observed) == Pairs(existing + observed)
  {
    PairsAreNormal(existing + observed);
    WrittenPairs(plan.insert);
    PairsOfConcat(existing, Written(plan.insert));
    PairsOfConcat(Applied(existing, plan.insert), observed);
    PairsOfConcat(existing, observed);
    assert forall p <- plan.insert :: p in Pairs(existing + observed);
  }

  lemma PairsOfConcat(a: seq<Claim>, b: seq<Claim>)
    ensures Pairs(a + b) == Pairs(a) + Pairs(b)
    ensures Held(a + b) == Held(a) + Held(b)
  {
    var s := a + b;
    assert forall i | 0 <= i < |a| :: s[i] == a[i];
    assert forall i | 0 <= i < |b| :: s[|a| + i] == b[i];
    forall p | p in Pairs(b)
      ensures p in Pairs(s)
    {
      var i :| 0 <= i < |b| && Stated(b[i]) && p == Insert(Norm(b[i].account), Norm(b[i].tenant));
      assert Stated(s[|a| + i]);
    }
    forall x | x in Held(b)
      ensures x in Held(s)
    {
      var i :| 0 <= i < |b| && Norm(b[i].account) != "" && x == Norm(b[i].account);
      assert Norm(s[|a| + i].account) == x;
    }
  }

  lemma NonEmptyHasMembers<T>(s: seq<T>)
    ensures s != [] ==> exists x :: x in s
  {
    if s != [] { assert s[0] in s; }
  }

  /** Running the merge again over what it wrote is accepted and has nothing left to write. */
  lemma ReplanIsEmpty(observed: seq<Claim>, existing: seq<Claim>, plan: ClaimPlan, again: ClaimPlan)
    requires IsPlan(observed, existing, plan) && plan.Accepted?
    requires IsPlan(observed, Applied(existing, plan.insert), again)
    ensures again.Accepted? && again.insert == []
  {
    AppliedPairs(observed, existing, plan);
    AcceptedIffFunctional(observed, Applied(existing, plan.insert), again);
    assert forall p :: p !in again.insert;
    NonEmptyHasMembers(again.insert);
  }

  /** An existing row whose tenant is blank holds its account without claiming it. */
  predicate HeldByNobody(existing: seq<Claim>, account: string) {
    account in Held(existing) && Tenants(existing, account) == {}
  }

  /** After an accepted plan is written, a claim that was made is on record exactly when no
    * tenantless row was sitting on its account: such a row keeps the account from ever being
    * recorded, and the plan does not say so. */
  lemma RecordedIff(observed: seq<Claim>, existing: seq<Claim>, plan: ClaimPlan, p: Insert)
    requires IsPlan(observed, existing, plan) && plan.Accepted?
    requires p in Pairs(existing + observed)
    ensures p in Pairs(Applied(existing, plan.insert)) <==> !HeldByNobody(existing, p.account)
  {
    AppliedPairs(observed, existing, plan);
    PairsAndTenants(existing);
    PairsOfConcat(existing, observed);
    var pairs := Pairs(existing + observed);
    if p.account in Held(existing) {
      assert p !in plan.insert;
      OnlyTenantOf(existing, pairs, p);
    } else {
      assert p in plan.insert;
      HoldersOfPairs(existing);
    }
  }

  /** One blank-tenant row and one claim of the same account: the plan is accepted, reports
    * the account as held, writes nothing, and leaves the claim unrecorded. */
  lemma BlankTenantHidesAClaim(account: string, tenant: string, plan: ClaimPlan)
    requires Norm(account) != "" && Norm(tenant) != ""
    requires IsPlan([Claim(account, tenant, IdentityHistory)], [Claim(account, "", ExistingClaim)], plan)
    ensures plan == Accepted([], 1)
    ensures Insert(Norm(account), Norm(tenant)) !in Pairs(Applied([Claim(account, "", ExistingClaim)], plan.insert))
  {
    var observed, existing := [Claim(account, tenant, IdentityHistory)], [Claim(account, "", ExistingClaim)];
    var p := Insert(Norm(account), Norm(tenant));
    assert Norm(existing[0].account) in Held(existing);
    assert Norm("") == "" && Pairs(existing) == {} && Held(existing) == {p.account};
    assert Stated(observed[0]);
    assert Pairs(observed) == {p};
    PairsOfConcat(existing, observed);
    AcceptedIffFunctional(observed, existing, plan);
    assert forall q :: q !in plan.insert;
    NonEmptyHasMembers(plan.insert);
    PairsAndTenants(existing);
    RecordedIff(observed, existing, plan, p);
  }

  lemma HoldersOfPairs(claims: seq<Claim>)
    ensures forall p <- Pairs(claims) :: p.account in Held(claims)
  {
  }

  /** A row that claims the account claims it for the one tenant there is. */
  lemma OnlyTenantOf(existing: seq<Claim>, pairs: set<Insert>, p: Insert)
    requires Pairs(existing) <= pairs && Functional(pairs) && p in pairs
    ensures p in Pairs(existing) <==> Tenants(existing, p.account) != {}
  {
    PairsAndTenants(existing);
    if t :| t in Tenants(existing, p.account) {
      assert !Disputed(p, Insert(p.account, t), pairs);
    }
  }
}
