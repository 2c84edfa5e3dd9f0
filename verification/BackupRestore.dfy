/**
 * A file restored into an empty firm and exported again: when the second file is planned as the first
 * was, up to the order of the rows.
 */
module BackupRestore {
  import opened Common
  import opened Chunks
  import opened Keyed
  import opened SerialIndex
  import opened StockCells
  import opened BackupPlan
  import opened Backup
  import opened BackupRoundTrip
  import opened BackupSound
  import opened BackupWrite
  import opened BackupStored

  // ------------------------------------------------------------------ what is asked of the keys of a plan

  function SchemeId(s: Scheme): int { s.id }

  /** Both stock maps name the same grades, and no party is there without a share. */
  predicate BaselineWhole(b: Baseline) {
    b.physical.Keys == b.sap.Keys && forall p :: p in b.party ==> b.party[p] != map[]
  }

  ghost predicate MasterKeysDiffer(plan: Plan) {
    && KeysDiffer(plan.parties, MasterKey) && KeysDiffer(plan.locations, MasterKey)
    && KeysDiffer(plan.grades, MasterKey) && KeysDiffer(plan.companies, MasterKey)
    && KeysDiffer(plan.sources, MasterKey) && KeysDiffer(plan.folders, MasterKey)
  }

  ghost predicate PurchaseKeysDiffer(plan: Plan) {
    KeysDiffer(plan.purchases, PurchaseKey) && KeysDiffer(Flat(plan.purchases, PaymentsOf), PaymentKey)
  }

  ghost predicate ClaimKeysDiffer(plan: Plan) {
    && KeysDiffer(plan.claims, ClaimKey) && KeysDiffer(plan.claims, PeriodKey)
    && KeysDiffer(Flat(plan.claims, NotesOf), NoteKey)
  }

  /** No row is overwritten, moved to another parent, or made way for. */
  ghost predicate KeysAreKeys(plan: Plan) {
    && MasterKeysDiffer(plan) && (plan.baseline.Some? ==> BaselineWhole(plan.baseline.value))
    && KeysDiffer(plan.routes, RouteKey) && KeysDiffer(plan.entries, EntryKey) && KeysDiffer(plan.schemes, SchemeId)
    && PurchaseKeysDiffer(plan) && ClaimKeysDiffer(plan)
  }

  // ------------------------------------------------------------------ what an export lists, and sameness

  function PartiesOf(shares: map<(int, int), real>): set<int> { set k | k in shares.Keys :: k.0 }

  function GradesOf(shares: map<(int, int), real>, p: int): (r: set<int>)
    ensures forall g :: g in r <==> (p, g) in shares
  {
    set k | k in shares.Keys && k.0 == p :: k.1
  }

  function SharesOf(shares: map<(int, int), real>, p: int): map<int, real> {
    map g | g in GradesOf(shares, p) :: shares[(p, g)]
  }

  function Exported(rows: BaselineRows): Baseline {
    Baseline(rows.date, map g | g in rows.stock :: rows.stock[g].0, map g | g in rows.stock :: rows.stock[g].1,
             map p | p in PartiesOf(rows.shares) :: SharesOf(rows.shares, p))
  }

  function KidsOfLive<P, C>(t: map<int, Child<C>>, parents: map<int, Stored<P>>): map<int, Child<C>> {
    map k | k in t && t[k].parent in parents && parents[t[k].parent].live :: t[k]
  }

  /** The rows an export reads, live ones with their children, each query in whatever order it likes. */
  ghost predicate IsListing(db: Db, t: Tables) {
    && Enumerates(Live(db.parties), Alive(t.parties), MasterKey)
    && Enumerates(Live(db.locations), Alive(t.locations), MasterKey)
    && Enumerates(Live(db.grades), Alive(t.grades), MasterKey)
    && Enumerates(Live(db.companies), Alive(t.companies), MasterKey)
    && Enumerates(Live(db.sources), Alive(t.sources), MasterKey)
    && Enumerates(Live(db.folders), Alive(t.folders), MasterKey)
    && Enumerates(Live(db.routes), Alive(t.routes), RouteKey)
    && db.baseline == (if t.baseline.None? then None
                       else Some(Stored(t.baseline.value.live, Exported(t.baseline.value.row))))
    && Enumerates(Sent(Live(db.days), DayHead), Alive(t.days), DayKey)
    && Enumerates(Flat(Live(db.days), ReceiptsOf), KidsOfLive(t.receipts, t.days), ReceiptKey)
    && Enumerates(Live(db.entries), Alive(t.entries), EntryKey)
    && Enumerates(Sent(Live(db.schemes), RowsOfScheme), Alive(t.schemes), SchemeKey)
    && Enumerates(Sent(Live(db.purchases), PurchaseHead), Alive(t.purchases), PurchaseKey)
    && Enumerates(Flat(Live(db.purchases), PaymentsOf), KidsOfLive(t.payments, t.purchases), PaymentKey)
    && Enumerates(Sent(Live(db.claims), ClaimHead), Alive(t.claims), ClaimKey)
    && Enumerates(Flat(Live(db.claims), NotesOf), KidsOfLive(t.notes, t.claims), NoteKey)
  }

  predicate SameMasters(p: Plan, q: Plan) {
    && multiset(p.parties) == multiset(q.parties) && multiset(p.locations) == multiset(q.locations)
    && multiset(p.grades) == multiset(q.grades) && multiset(p.companies) == multiset(q.companies)
    && multiset(p.sources) == multiset(q.sources) && multiset(p.folders) == multiset(q.folders)
  }

  predicate SameDays(p: Plan, q: Plan) {
    && multiset(Sent(p.days, DayHead)) == multiset(Sent(q.days, DayHead))
    && multiset(Flat(p.days, ReceiptsOf)) == multiset(Flat(q.days, ReceiptsOf))
  }

  predicate SamePurchases(p: Plan, q: Plan) {
    && multiset(Sent(p.purchases, PurchaseHead)) == multiset(Sent(q.purchases, PurchaseHead))
    && multiset(Flat(p.purchases, PaymentsOf)) == multiset(Flat(q.purchases, PaymentsOf))
  }

  predicate SameClaims(p: Plan, q: Plan) {
    && multiset(Sent(p.claims, ClaimHead)) == multiset(Sent(q.claims, ClaimHead))
    && multiset(Flat(p.claims, NotesOf)) == multiset(Flat(q.claims, NotesOf))
  }

  /** The same rows in every table, children with the same parents; their order does not matter. */
  predicate SamePlan(p: Plan, q: Plan) {
    && SameMasters(p, q) && p.baseline == q.baseline && SameDays(p, q)
    && multiset(p.entries) == multiset(q.entries) && multiset(p.routes) == multiset(q.routes)
    && multiset(Sent(p.schemes, RowsOfScheme)) == multiset(Sent(q.schemes, RowsOfScheme))
    && SamePurchases(p, q) && SameClaims(p, q)
  }

  // ------------------------------------------------------------------ what was written against what was planned

  lemma HeadsDifferIff<R(!new), H(!new), K(!new)>(rows: seq<R>, head: R -> H, headKey: H -> K, key: R -> K)
    requires forall r :: headKey(head(r)) == key(r)
    ensures KeysDiffer(Sent(rows, head), headKey) <==> KeysDiffer(rows, key)
  {
    var heads := Sent(rows, head);
    assert forall i :: 0 <= i < |rows| ==> headKey(heads[i]) == key(rows[i]);
    if KeysDiffer(heads, headKey) {
      forall i, j | 0 <= i < j < |rows| ensures key(rows[i]) != key(rows[j]) {
        assert headKey(heads[i]) != headKey(heads[j]);
      }
    }
  }

  lemma RowsSameIff<R(!new), K(!new)>(list: seq<R>, t: map<K, Stored<R>>, rows: seq<R>, key: R -> K)
    requires t == Upserted(map[], rows, key) && Enumerates(list, Alive(t), key)
    ensures multiset(list) == multiset(rows) <==> KeysDiffer(rows, key)
  {
    UpsertedIsWritten(rows, key);
    SameRowsIff(list, rows, key);
  }

  lemma MastersSameIff(db: Db, t: Tables, plan: Plan)
    requires IsListing(db, t) && Filled(plan, t)
    ensures SameMasters(LivePlan(db), plan) <==> MasterKeysDiffer(plan)
  {
    RowsSameIff(Live(db.parties), t.parties, plan.parties, MasterKey);
    RowsSameIff(Live(db.locations), t.locations, plan.locations, MasterKey);
    RowsSameIff(Live(db.grades), t.grades, plan.grades, MasterKey);
    RowsSameIff(Live(db.companies), t.companies, plan.companies, MasterKey);
    RowsSameIff(Live(db.sources), t.sources, plan.sources, MasterKey);
    RowsSameIff(Live(db.folders), t.folders, plan.folders, MasterKey);
  }

  lemma ShownParty(b: Baseline, p: int)
    ensures p in PartiesOf(RowsOfBaseline(b).shares) <==> p in b.party && b.party[p] != map[]
    ensures p in b.party ==> SharesOf(RowsOfBaseline(b).shares, p) == b.party[p]
  {
    var shares := RowsOfBaseline(b).shares;
    forall g ensures (p, g) in shares <==> p in b.party && g in b.party[p] {
    }
    if p in b.party && b.party[p] != map[] {
      var g :| g in b.party[p];
      assert (p, g) in shares.Keys && (p, g).0 == p;
    }
    if p in PartiesOf(shares) {
      var k :| k in shares.Keys && k.0 == p;
      assert k == (p, k.1);
    }
  }

  /** What is shown of the parties' maps: those that are not empty, as they are. */
  lemma NonEmptyShown(party: map<int, map<int, real>>, shown: map<int, map<int, real>>)
    requires forall p :: p in shown <==> p in party && party[p] != map[]
    requires forall p :: p in shown ==> shown[p] == party[p]
    ensures shown.Keys <= party.Keys
    ensures shown == party <==> forall p :: p in party ==> party[p] != map[]
  {
    forall p ensures p in shown.Keys <==> p in party.Keys && party[p] != map[] {
      assert p in shown <==> p in party && party[p] != map[];
    }
    if forall p :: p in party ==> party[p] != map[] {
      forall p | p in party ensures p in shown && shown[p] == party[p] {
        assert p in shown.Keys;
      }
      assert shown == party;
    }
  }

  lemma PartySameIff(b: Baseline)
    ensures Exported(RowsOfBaseline(b)).party.Keys <= b.party.Keys
    ensures Exported(RowsOfBaseline(b)).party == b.party <==> forall p :: p in b.party ==> b.party[p] != map[]
  {
    var party := Exported(RowsOfBaseline(b)).party;
    forall p
      ensures p in party <==> p in b.party && b.party[p] != map[]
      ensures p in party ==> party[p] == b.party[p]
    {
      ShownParty(b, p);
    }
    NonEmptyShown(b.party, party);
  }

  lemma StockSameIff(b: Baseline)
    ensures var shown := Exported(RowsOfBaseline(b));
            shown.physical == b.physical && shown.sap == b.sap <==> b.physical.Keys == b.sap.Keys
  {
    var rows := RowsOfBaseline(b);
    var shown := Exported(rows);
    assert rows.stock.Keys == b.physical.Keys + b.sap.Keys;
    assert shown.physical.Keys == rows.stock.Keys && shown.sap.Keys == rows.stock.Keys;
  }

  /** A baseline is shown as it was planned exactly when it is whole. */
  lemma BaselineSameIff(b: Baseline)
    ensures Exported(RowsOfBaseline(b)) == b <==> BaselineWhole(b)
    ensures Exported(RowsOfBaseline(b)).date == b.date
    ensures Exported(RowsOfBaseline(b)).party.Keys <= b.party.Keys
  {
    StockSameIff(b);
    PartySameIff(b);
  }

  ghost predicate ParentThere<P(!new)>(parents: seq<P>, key: P -> int, n: int) {
    exists i :: 0 <= i < |parents| && key(parents[i]) == n
  }

  lemma {:induction false} FlatParent<P(!new), C(!new)>(parents: seq<P>, kids: P -> seq<Child<C>>, key: P -> int,
                                                        r: Child<C>)
    requires forall p, i :: 0 <= i < |kids(p)| ==> kids(p)[i].parent == key(p)
    requires r in Flat(parents, kids)
    ensures ParentThere(parents, key, r.parent)
  {
    var front, last := parents[..|parents| - 1], parents[|parents| - 1];
    if r in kids(last) {
      assert key(parents[|parents| - 1]) == r.parent;
    } else {
      FlatParent(front, kids, key, r);
      var i :| 0 <= i < |front| && key(front[i]) == r.parent;
      assert key(parents[i]) == r.parent;
    }
  }

  lemma {:induction false} AdoptedParentFrom<C(!new)>(rows: seq<Child<C>>, key: Child<C> -> int, k: int)
    requires k in Adopted(map[], rows, key)
    ensures exists i :: 0 <= i < |rows| && Adopted(map[], rows, key)[k].parent == rows[i].parent
  {
    var front, last := rows[..|rows| - 1], rows[|rows| - 1];
    if k in Adopted(map[], front, key) {
      AdoptedParentFrom(front, key, k);
      var i :| 0 <= i < |front| && Adopted(map[], front, key)[k].parent == front[i].parent;
      assert rows[i] == front[i];
    }
  }

  lemma AllKidsAreOfLive<P(!new), C(!new)>(t: map<int, Child<C>>, parents: map<int, Stored<P>>)
    requires forall k :: k in t ==> t[k].parent in parents && parents[t[k].parent].live
    ensures KidsOfLive(t, parents) == t
  {
    assert forall k :: k in KidsOfLive(t, parents) <==> k in t;
  }

  lemma ReceiptsSame(db: Db, t: Tables, plan: Plan)
    requires IsListing(db, t) && Filled(plan, t) && KeysDiffer(Flat(plan.days, ReceiptsOf), ReceiptKey)
    ensures KidsOfLive(t.receipts, t.days) == t.receipts
    ensures multiset(Flat(Live(db.days), ReceiptsOf)) == multiset(Flat(plan.days, ReceiptsOf))
  {
    var flat, heads := Flat(plan.days, ReceiptsOf), Sent(plan.days, DayHead);
    WrittenIs(flat, ReceiptKey);
    UpsertedIsWritten(heads, DayKey);
    WrittenIs(heads, DayKey);
    forall k | k in t.receipts ensures t.receipts[k].parent in t.days && t.days[t.receipts[k].parent].live {
      FlatParent(plan.days, ReceiptsOf, DayKey, t.receipts[k]);
      var i :| 0 <= i < |plan.days| && DayKey(plan.days[i]) == t.receipts[k].parent;
      assert DayKey(heads[i]) == DayKey(plan.days[i]) && DayKey(heads[i]) in Written(map[], heads, DayKey);
      assert DayKey(heads[i]) in Alive(t.days);
    }
    AllKidsAreOfLive(t.receipts, t.days);
    SameRowsIff(Flat(Live(db.days), ReceiptsOf), flat, ReceiptKey);
  }

  lemma PaymentsSameIff(db: Db, t: Tables, plan: Plan)
    requires IsListing(db, t) && Filled(plan, t)
    ensures KidsOfLive(t.payments, t.purchases) == t.payments
    ensures multiset(Flat(Live(db.purchases), PaymentsOf)) == multiset(Flat(plan.purchases, PaymentsOf))
       <==> KeysDiffer(Flat(plan.purchases, PaymentsOf), PaymentKey)
  {
    var flat, heads := Flat(plan.purchases, PaymentsOf), Sent(plan.purchases, PurchaseHead);
    UpsertedIsWritten(heads, PurchaseKey);
    WrittenIs(heads, PurchaseKey);
    forall k | k in t.payments ensures t.payments[k].parent in t.purchases && t.purchases[t.payments[k].parent].live {
      AdoptedParentFrom(flat, PaymentKey, k);
      var j :| 0 <= j < |flat| && t.payments[k].parent == flat[j].parent;
      assert flat[j] in flat;
      FlatParent(plan.purchases, PaymentsOf, PurchaseKey, flat[j]);
      var i :| 0 <= i < |plan.purchases| && PurchaseKey(plan.purchases[i]) == flat[j].parent;
      assert PurchaseKey(heads[i]) == PurchaseKey(plan.purchases[i]);
      assert PurchaseKey(heads[i]) in Written(map[], heads, PurchaseKey);
      assert PurchaseKey(heads[i]) in Alive(t.purchases);
    }
    AllKidsAreOfLive(t.payments, t.purchases);
    SameChildrenIff(Flat(Live(db.purchases), PaymentsOf), flat, PaymentKey);
  }

  lemma EntriesSameIff(db: Db, t: Tables, plan: Plan)
    requires IsListing(db, t) && Filled(plan, t)
    ensures multiset(Live(db.entries)) == multiset(plan.entries) <==> KeysDiffer(plan.entries, EntryKey)
  {
    if KeysDiffer(plan.entries, EntryKey) {
      EntriesAsPlanned(plan.entries);
      RowsSameIff(Live(db.entries), t.entries, plan.entries, EntryKey);
    } else if multiset(Live(db.entries)) == multiset(plan.entries) {
      DistinctIfSame(Live(db.entries), plan.entries, EntryKey);
    }
  }

  lemma PeriodsListedDiffer(db: Db, t: Tables, plan: Plan)
    requires IsListing(db, t) && Filled(plan, t)
    ensures KeysDiffer(Sent(Live(db.claims), ClaimHead), PeriodKey)
  {
    var heads := Sent(Live(db.claims), ClaimHead);
    PeriodsStayUnique(plan.claims);
    forall i, j | 0 <= i < j < |heads| ensures PeriodKey(heads[i]) != PeriodKey(heads[j]) {
      assert heads[i] in heads && heads[j] in heads && ClaimKey(heads[i]) != ClaimKey(heads[j]);
      assert Alive(t.claims)[ClaimKey(heads[i])] == heads[i] && Alive(t.claims)[ClaimKey(heads[j])] == heads[j];
    }
  }

  lemma NotesAreOfLive(t: Tables, plan: Plan)
    requires Filled(plan, t)
    ensures KidsOfLive(t.notes, t.claims) == t.notes
  {
    ClaimsComeFromFile(plan.claims);
    AllKidsAreOfLive(t.notes, t.claims);
  }

  lemma ClaimsSameIff(db: Db, t: Tables, plan: Plan)
    requires IsListing(db, t) && Filled(plan, t)
    ensures SameClaims(LivePlan(db), plan) <==> ClaimKeysDiffer(plan)
  {
    var list, heads := Sent(Live(db.claims), ClaimHead), Sent(plan.claims, ClaimHead);
    var notes, flat := Flat(Live(db.claims), NotesOf), Flat(plan.claims, NotesOf);
    HeadsDifferIff(plan.claims, ClaimHead, ClaimKey, ClaimKey);
    HeadsDifferIff(plan.claims, ClaimHead, PeriodKey, PeriodKey);
    NotesAreOfLive(t, plan);
    if ClaimKeysDiffer(plan) {
      ClaimsAsPlanned(plan.claims);
      RowsSameIff(list, t.claims, heads, ClaimKey);
      SameChildrenIff(notes, flat, NoteKey);
    } else if multiset(list) == multiset(heads) && multiset(notes) == multiset(flat) {
      PeriodsListedDiffer(db, t, plan);
      DistinctIfSame(list, heads, ClaimKey);
      DistinctIfSame(list, heads, PeriodKey);
      DistinctIfSame(notes, flat, NoteKey);
    }
  }

  // ------------------------------------------------------------------ the second file is accepted

  lemma ListedComeFromRows<R(!new), K(!new)>(list: seq<R>, t: map<K, Stored<R>>, rows: seq<R>, key: R -> K)
    requires t == Upserted(map[], rows, key) && Enumerates(list, Alive(t), key)
    ensures forall r :: r in list ==> r in rows
    ensures forall r :: r in rows ==> exists l :: l in list && key(l) == key(r)
  {
    UpsertedIsWritten(rows, key);
    WrittenIs(rows, key);
    forall r | r in rows ensures exists l :: l in list && key(l) == key(r) {
      var i :| 0 <= i < |rows| && rows[i] == r;
      assert key(rows[i]) in Written(map[], rows, key);
      assert Alive(t)[key(r)] in list && key(Alive(t)[key(r)]) == key(r);
    }
  }

  lemma MastersListed(list: seq<Master>, t: map<int, Stored<Master>>, rows: seq<Master>)
    requires t == Upserted(map[], rows, MasterKey) && Enumerates(list, Alive(t), MasterKey)
    ensures IdsOf(list) == IdsOf(rows) && (AllNamed(rows) ==> AllNamed(list))
  {
    ListedComeFromRows(list, t, rows, MasterKey);
    forall id ensures id in IdsOf(list) <==> id in IdsOf(rows) {
      if id in IdsOf(rows) {
        var m :| m in rows && m.id == id;
        var l :| l in list && MasterKey(l) == MasterKey(m);
        assert l.id == id;
      }
    }
  }

  lemma AllMastersListed(db: Db, t: Tables, plan: Plan)
    requires IsListing(db, t) && Filled(plan, t)
    ensures LiveRefs(db) == OwnRefs(plan) && IdsOf(Live(db.folders)) == IdsOf(plan.folders)
    ensures MastersAreSound(plan) ==> MastersNamed(db)
  {
    MastersListed(Live(db.parties), t.parties, plan.parties);
    MastersListed(Live(db.locations), t.locations, plan.locations);
    MastersListed(Live(db.grades), t.grades, plan.grades);
    MastersListed(Live(db.companies), t.companies, plan.companies);
    MastersListed(Live(db.sources), t.sources, plan.sources);
    MastersListed(Live(db.folders), t.folders, plan.folders);
  }

  lemma {:induction false} KidsAreFlat<P(!new), C(!new)>(parents: seq<P>, kids: P -> seq<C>, p: P)
    requires p in parents
    ensures forall r :: r in kids(p) ==> r in Flat(parents, kids)
  {
    var front := parents[..|parents| - 1];
    if p != parents[|parents| - 1] {
      assert p in front;
      KidsAreFlat(front, kids, p);
    }
  }

  lemma {:induction false} FlatIsKids<P(!new), C(!new)>(parents: seq<P>, kids: P -> seq<C>, r: C)
    requires r in Flat(parents, kids)
    ensures exists p :: p in parents && r in kids(p)
  {
    var front, last := parents[..|parents| - 1], parents[|parents| - 1];
    if r !in kids(last) {
      FlatIsKids(front, kids, r);
      var p :| p in front && r in kids(p);
      assert p in parents;
    }
  }

  /** A receipt of a listed sheet is one the file held, in some sheet. */
  lemma ListedReceipts(db: Db, t: Tables, plan: Plan, known: Refs, d: Day, i: nat)
    requires IsListing(db, t) && Filled(plan, t) && KidsOfLive(t.receipts, t.days) == t.receipts
    requires forall x :: x in plan.days ==> DaySound(x, plan.baseline, known)
    requires d in Live(db.days) && i < |d.receipts|
    ensures d.receipts[i].grade in known.grades && |d.receipts[i].ref| <= 120
  {
    var r, flat := ReceiptsOf(d)[i], Flat(plan.days, ReceiptsOf);
    assert r in ReceiptsOf(d);
    KidsAreFlat(Live(db.days), ReceiptsOf, d);
    WrittenIs(flat, ReceiptKey);
    assert t.receipts[ReceiptKey(r)] == r;
    assert r in flat;
    FlatIsKids(plan.days, ReceiptsOf, r);
    var x :| x in plan.days && r in ReceiptsOf(x);
    var j :| 0 <= j < |ReceiptsOf(x)| && ReceiptsOf(x)[j] == r;
    assert DaySound(x, plan.baseline, known) && x.receipts[j] == r.row;
  }

  lemma HeadsListed<R(!new), K(!new)>(list: seq<R>, rows: seq<R>, t: map<K, Stored<R>>, head: R -> R, key: R -> K, r: R)
    requires t == Upserted(map[], Sent(rows, head), key) && Enumerates(Sent(list, head), Alive(t), key) && r in list
    ensures exists x :: x in rows && head(x) == head(r)
  {
    var i :| 0 <= i < |list| && list[i] == r;
    assert Sent(list, head)[i] in Sent(list, head);
    ListedComeFromRows(Sent(list, head), t, Sent(rows, head), key);
    var j :| 0 <= j < |rows| && Sent(rows, head)[j] == head(r);
    assert rows[j] in rows && head(rows[j]) == head(r);
  }

  lemma DayListed(db: Db, t: Tables, plan: Plan, known: Refs, d: Day)
    requires IsListing(db, t) && Filled(plan, t) && KidsOfLive(t.receipts, t.days) == t.receipts
    requires forall x :: x in plan.days ==> DaySound(x, plan.baseline, known)
    requires d in Live(db.days)
    ensures DaySound(d, plan.baseline, known)
  {
    HeadsListed(Live(db.days), plan.days, t.days, DayHead, DayKey, d);
    var x :| x in plan.days && DayHead(x) == DayHead(d);
    assert DaySound(x, plan.baseline, known);
    assert x.rows == DayHead(x).rows == d.rows && x.note == DayHead(x).note == d.note;
    assert x.date == DayHead(x).date == d.date;
    forall i | 0 <= i < |d.receipts| ensures d.receipts[i].grade in known.grades && |d.receipts[i].ref| <= 120 {
      ListedReceipts(db, t, plan, known, d, i);
    }
  }

  lemma DatesListed(db: Db, t: Tables)
    requires IsListing(db, t)
    ensures DatesDiffer(Live(db.days))
  {
    var heads := Sent(Live(db.days), DayHead);
    forall i, j | 0 <= i < j < |Live(db.days)| ensures Live(db.days)[i].date != Live(db.days)[j].date {
      assert DayKey(heads[i]) != DayKey(heads[j]);
    }
  }

  lemma EntriesListed(db: Db, t: Tables, plan: Plan, known: Refs)
    requires IsListing(db, t) && Filled(plan, t)
    requires forall e :: e in plan.entries ==> EntrySound(e, known)
    ensures SerialsDiffer(Live(db.entries)) && forall e :: e in Live(db.entries) ==> EntrySound(e, known)
  {
    EntriesStaySound(plan.entries, known);
    EntriesAreTakenIff(plan.entries);
    var list, slots := Live(db.entries), SlotsOf(t.entries);
    forall e | e in list ensures EntrySound(e, known) && Bears(slots, e.id, e.serial) {
      assert Alive(t.entries)[EntryKey(e)] == e;
    }
    forall i, j | 0 <= i < j < |list| && list[i].serial > 0 ensures list[i].serial != list[j].serial {
      assert EntryKey(list[i]) != EntryKey(list[j]) && list[i] in list && list[j] in list;
      assert Bears(slots, list[i].id, list[i].serial) && Bears(slots, list[j].id, list[j].serial);
    }
  }

  lemma SameElements<T(!new)>(a: seq<T>, b: seq<T>)
    requires multiset(a) == multiset(b)
    ensures forall x :: x in a <==> x in b
    ensures Distinct(b) ==> Distinct(a)
    ensures |a| == |b|
  {
    assert forall x :: (x in a <==> x in multiset(a)) && (x in b <==> x in multiset(b));
    DistinctIffOnce(a);
    DistinctIffOnce(b);
    assert |multiset(a)| == |multiset(b)|;
  }

  lemma SchemeListed(s: Scheme, x: Scheme, known: Refs, folders: set<int>)
    requires RowsOfScheme(s) == RowsOfScheme(x) && SchemeSound(x, known, folders)
    ensures SchemeSound(s, known, folders)
  {
    var h := RowsOfScheme(s).head;
    assert h == x.(gradeIds := [], premium := []) == s.(gradeIds := [], premium := []);
    assert s == x.(gradeIds := s.gradeIds, premium := s.premium) by {
      assert s.(gradeIds := [], premium := []).(gradeIds := s.gradeIds, premium := s.premium) == s;
    }
    SameElements(s.gradeIds, x.gradeIds);
    SameElements(s.premium, x.premium);
    forall i | 0 <= i < |s.gradeIds| ensures s.gradeIds[i] in known.grades {
      assert s.gradeIds[i] in s.gradeIds;
    }
    forall i | 0 <= i < |s.premium| ensures s.premium[i] in known.grades {
      assert s.premium[i] in s.premium;
    }
    assert s.gradeIds != [] ==> s.gradeIds[0] in known.grades;
    assert s.premium != [] ==> s.premium[0] in known.grades;
    if |s.gradeIds| == 1 {
      assert s.gradeIds[0] in x.gradeIds;
    }
  }

  lemma SchemePlanned(db: Db, t: Tables, plan: Plan, s: Scheme) returns (x: Scheme)
    requires IsListing(db, t) && Filled(plan, t) && s in Live(db.schemes)
    ensures x in plan.schemes && RowsOfScheme(x) == RowsOfScheme(s)
  {
    var list, rows := Sent(Live(db.schemes), RowsOfScheme), Sent(plan.schemes, RowsOfScheme);
    ListedComeFromRows(list, t.schemes, rows, SchemeKey);
    var i :| 0 <= i < |Live(db.schemes)| && Live(db.schemes)[i] == s;
    assert list[i] in list;
    var j :| 0 <= j < |rows| && rows[j] == RowsOfScheme(s);
    x := plan.schemes[j];
  }

  lemma SchemesListed(db: Db, t: Tables, plan: Plan, known: Refs, folders: set<int>)
    requires IsListing(db, t) && Filled(plan, t)
    requires forall s :: s in plan.schemes ==> SchemeSound(s, known, folders)
    ensures forall s :: s in Live(db.schemes) ==> SchemeSound(s, known, folders)
  {
    forall s | s in Live(db.schemes) ensures SchemeSound(s, known, folders) {
      var x := SchemePlanned(db, t, plan, s);
      SchemeListed(s, x, known, folders);
    }
  }

  lemma RoutesListed(db: Db, t: Tables, plan: Plan)
    requires IsListing(db, t) && Filled(plan, t)
    ensures forall r :: r in Live(db.routes) ==> r in plan.routes
  {
    ListedComeFromRows(Live(db.routes), t.routes, plan.routes, RouteKey);
  }

  lemma PurchasesListed(db: Db, t: Tables, plan: Plan, known: Refs)
    requires IsListing(db, t) && Filled(plan, t)
    requires forall p :: p in plan.purchases ==> PurchaseSound(p, known)
    ensures forall p :: p in Live(db.purchases) ==> PurchaseSound(p, known)
  {
    forall p | p in Live(db.purchases) ensures PurchaseSound(p, known) {
      HeadsListed(Live(db.purchases), plan.purchases, t.purchases, PurchaseHead, PurchaseKey, p);
      var x :| x in plan.purchases && PurchaseHead(x) == PurchaseHead(p);
      assert PurchaseSound(x, known) && p == x.(payments := p.payments) by {
        assert PurchaseHead(p).(payments := p.payments) == p;
      }
    }
  }

  lemma ListedNotes(db: Db, t: Tables, plan: Plan, c: Claim, i: nat)
    requires IsListing(db, t) && Filled(plan, t) && c in Live(db.claims) && i < |c.notes|
    requires forall x :: x in plan.claims ==> ClaimSound(x)
    ensures |c.notes[i].number| <= 80
  {
    var n := NotesOf(c)[i];
    assert n in NotesOf(c);
    KidsAreFlat(Live(db.claims), NotesOf, c);
    NotesAreOfLive(t, plan);
    assert t.notes[NoteKey(n)] == n;
    ClaimsComeFromFile(plan.claims);
    var k :| 0 <= k < |plan.claims| && n.row in plan.claims[k].notes;
    assert ClaimSound(plan.claims[k]);
  }

  lemma ClaimListed(db: Db, t: Tables, plan: Plan, c: Claim) returns (x: Claim)
    requires IsListing(db, t) && Filled(plan, t) && c in Live(db.claims)
    ensures x in plan.claims && ClaimHead(x) == ClaimHead(c)
  {
    var list, heads := Sent(Live(db.claims), ClaimHead), Sent(plan.claims, ClaimHead);
    ClaimsComeFromFile(plan.claims);
    var i :| 0 <= i < |Live(db.claims)| && Live(db.claims)[i] == c;
    assert list[i] in list && Alive(t.claims)[ClaimKey(list[i])] == list[i];
    var j :| 0 <= j < |heads| && heads[j] == ClaimHead(c);
    x := plan.claims[j];
  }

  lemma ClaimsListed(db: Db, t: Tables, plan: Plan)
    requires IsListing(db, t) && Filled(plan, t)
    requires forall x :: x in plan.claims ==> ClaimSound(x)
    ensures forall c :: c in Live(db.claims) ==> ClaimSound(c)
  {
    forall c | c in Live(db.claims) ensures ClaimSound(c) {
      var x := ClaimListed(db, t, plan, c);
      assert ClaimSound(x) && c == x.(notes := c.notes) by {
        assert ClaimHead(c).(notes := c.notes) == c;
      }
      forall k | 0 <= k < |c.notes| ensures |c.notes[k].number| <= 80 {
        ListedNotes(db, t, plan, c, k);
      }
    }
  }

  /** Whatever the order of its rows, the second file keeps every rule the first kept. */
  lemma ListingIsSound(db: Db, t: Tables, plan: Plan)
    requires PlanSound(plan, OwnRefs(plan)) && Filled(plan, t) && IsListing(db, t)
    requires KeysDiffer(Flat(plan.days, ReceiptsOf), ReceiptKey)
    ensures LiveRefs(db) == OwnRefs(plan) && WellStored(db)
    ensures Importable(db, OwnRefs(plan)) && ComesThrough(db, OwnRefs(plan))
  {
    var known, folders := OwnRefs(plan), IdsOf(plan.folders);
    AllMastersListed(db, t, plan);
    DatesListed(db, t);
    EntriesListed(db, t, plan, known);
    SchemesListed(db, t, plan, known, folders);
    RoutesListed(db, t, plan);
    PurchasesListed(db, t, plan, known);
    ClaimsListed(db, t, plan);
    ReceiptsSame(db, t, plan);
    if plan.baseline.Some? { BaselineSameIff(plan.baseline.value); }
    forall d | d in Live(db.days)
      ensures DaySound(d, plan.baseline, known) && DayRefersToLive(d, BaselineRow(db), known)
    {
      DayListed(db, t, plan, known, d);
    }
  }

  lemma PurchasesSameIff(db: Db, t: Tables, plan: Plan)
    requires IsListing(db, t) && Filled(plan, t)
    ensures SamePurchases(LivePlan(db), plan) <==> PurchaseKeysDiffer(plan)
  {
    RowsSameIff(Sent(Live(db.purchases), PurchaseHead), t.purchases, Sent(plan.purchases, PurchaseHead), PurchaseKey);
    HeadsDifferIff(plan.purchases, PurchaseHead, PurchaseKey, PurchaseKey);
    PaymentsSameIff(db, t, plan);
  }

  lemma SchemesSameIff(db: Db, t: Tables, plan: Plan)
    requires IsListing(db, t) && Filled(plan, t)
    ensures multiset(Sent(Live(db.schemes), RowsOfScheme)) == multiset(Sent(plan.schemes, RowsOfScheme))
       <==> KeysDiffer(plan.schemes, SchemeId)
  {
    RowsSameIff(Sent(Live(db.schemes), RowsOfScheme), t.schemes, Sent(plan.schemes, RowsOfScheme), SchemeKey);
    HeadsDifferIff(plan.schemes, RowsOfScheme, SchemeKey, SchemeId);
  }

  lemma DaysSame(db: Db, t: Tables, plan: Plan)
    requires IsListing(db, t) && Filled(plan, t) && DatesDiffer(plan.days)
    requires KeysDiffer(Flat(plan.days, ReceiptsOf), ReceiptKey)
    ensures SameDays(LivePlan(db), plan)
  {
    RowsSameIff(Sent(Live(db.days), DayHead), t.days, Sent(plan.days, DayHead), DayKey);
    HeadsDifferIff(plan.days, DayHead, DayKey, DayKey);
    ReceiptsSame(db, t, plan);
  }

  lemma BaselinesSameIff(db: Db, t: Tables, plan: Plan)
    requires IsListing(db, t) && Filled(plan, t)
    ensures LivePlan(db).baseline == plan.baseline <==> (plan.baseline.Some? ==> BaselineWhole(plan.baseline.value))
  {
    if plan.baseline.Some? { BaselineSameIff(plan.baseline.value); }
  }

  lemma SamePlanIff(db: Db, t: Tables, plan: Plan)
    requires IsListing(db, t) && Filled(plan, t) && DatesDiffer(plan.days)
    requires KeysDiffer(Flat(plan.days, ReceiptsOf), ReceiptKey)
    ensures SamePlan(LivePlan(db), plan) <==> KeysAreKeys(plan)
  {
    MastersSameIff(db, t, plan);
    BaselinesSameIff(db, t, plan);
    DaysSame(db, t, plan);
    EntriesSameIff(db, t, plan);
    RowsSameIff(Live(db.routes), t.routes, plan.routes, RouteKey);
    SchemesSameIff(db, t, plan);
    PurchasesSameIff(db, t, plan);
    ClaimsSameIff(db, t, plan);
  }

  function KnownTo(file: File): Refs { Merged(RefsOf(file), NO_REFS) }

  lemma KnownToExport(db: Db, plan: Plan)
    requires LiveRefs(db) == OwnRefs(plan)
    ensures Merged(LiveRefs(db), NO_REFS) == OwnRefs(plan)
  {
  }

  lemma ExportedAgain(plan: Plan, t: Tables, db: Db)
    requires PlanSound(plan, OwnRefs(plan)) && Filled(plan, t) && IsListing(db, t)
    requires KeysDiffer(Flat(plan.days, ReceiptsOf), ReceiptKey)
    ensures FaultsOf(Export(db), KnownTo(Export(db))) == {}
    ensures Planned(Export(db), KnownTo(Export(db))) == LivePlan(db)
  {
    ListingIsSound(db, t, plan);
    KnownToExport(db, plan);
    ExportIsAcceptedIff(db, NO_REFS);
    RoundTripIff(db, NO_REFS);
  }

  lemma PlanRestoredIff(plan: Plan, mode: Mode, db: Db)
    requires PlanSound(plan, OwnRefs(plan))
    requires var (t, ok) := Restored(EMPTY_FIRM, mode, plan); ok ==> IsListing(db, t)
    ensures var ok := Restored(EMPTY_FIRM, mode, plan).1;
            && (ok <==> Storable(plan))
            && (ok ==> FaultsOf(Export(db), KnownTo(Export(db))) == {}
                       && (SamePlan(Planned(Export(db), KnownTo(Export(db))), plan) <==> KeysAreKeys(plan)))
  {
    RestorePassesIff(plan, mode);
    var (t, ok) := Restored(EMPTY_FIRM, mode, plan);
    if ok {
      ExportedAgain(plan, t, db);
      SamePlanIff(db, t, plan);
    }
  }

  lemma PlanIsSound(file: File)
    requires FaultsOf(file, KnownTo(file)) == {}
    ensures PlanSound(Planned(file, KnownTo(file)), OwnRefs(Planned(file, KnownTo(file))))
  {
    assert OwnRefs(Planned(file, KnownTo(file))) == KnownTo(file);
    FaultlessPlanIsSound(file, KnownTo(file));
  }

  /**
   * A file of any origin without a fault, restored into an empty firm and exported again. Every
   * statement gets through if and only if the plan is storable; then the second file is accepted, and it
   * is planned as the first was, up to the order of rows, if and only if the plan's keys are keys.
   */
  lemma RestoredAndExportedIff(file: File, mode: Mode, db: Db)
    requires FaultsOf(file, KnownTo(file)) == {}
    requires var (t, ok) := Restored(EMPTY_FIRM, mode, Planned(file, KnownTo(file))); ok ==> IsListing(db, t)
    ensures var plan, again := Planned(file, KnownTo(file)), Export(db);
            var ok := Restored(EMPTY_FIRM, mode, plan).1;
            && (ok <==> Storable(plan))
            && (ok ==> FaultsOf(again, KnownTo(again)) == {}
                       && (SamePlan(Planned(again, KnownTo(again)), plan) <==> KeysAreKeys(plan)))
  {
    PlanIsSound(file);
    PlanRestoredIff(Planned(file, KnownTo(file)), mode, db);
  }

  // ------------------------------------------------------------------ a firm's own backup

  /** The keys and indexes a database upholds and a listing does not show by itself. */
  ghost predicate IndexesHold(t: Tables) {
    && SerialIndex.Unique(SlotsOf(t.entries)) && PeriodsDiffer(t.claims)
    && forall k :: k in t.schemes ==> OnceOnly(t.schemes[k].row.premium)
  }

  lemma OwnSerialsDiffer(db: Db, t: Tables)
    requires IsListing(db, t) && IndexesHold(t)
    ensures NoTwoAlike(map[], NumberedOf(Live(db.entries)))
  {
    var list, ns := Live(db.entries), NumberedOf(Live(db.entries));
    forall k, l | 0 <= k < l < |ns| ensures ns[k].id != ns[l].id {
      assert EntryKey(list[k]) != EntryKey(list[l]);
    }
    forall i | 0 <= i < |ns| ensures Bears(SlotsOf(t.entries), ns[i].id, ns[i].serial) {
      assert list[i] in list && Alive(t.entries)[EntryKey(list[i])] == list[i];
    }
    forall i, j | 0 <= i < |ns| && 0 <= j < |ns| && ns[i].id != ns[j].id
      ensures Carried(map[], ns, ns[i].id) != Carried(map[], ns, ns[j].id)
    {
      FirstIsOwn(ns, i);
      FirstIsOwn(ns, j);
    }
  }

  lemma OwnPremiumsDiffer(db: Db, t: Tables)
    requires IsListing(db, t) && IndexesHold(t)
    ensures forall s :: s in Live(db.schemes) ==> Distinct(s.premium)
  {
    var rows := Sent(Live(db.schemes), RowsOfScheme);
    forall s | s in Live(db.schemes) ensures Distinct(s.premium) {
      var i :| 0 <= i < |Live(db.schemes)| && Live(db.schemes)[i] == s;
      assert rows[i] in rows && Alive(t.schemes)[SchemeKey(rows[i])] == rows[i];
      DistinctIffOnce(s.premium);
    }
  }

  lemma OwnPeriodsDiffer(db: Db, t: Tables)
    requires IsListing(db, t) && IndexesHold(t)
    ensures KeysDiffer(Live(db.claims), PeriodKey)
  {
    var heads := Sent(Live(db.claims), ClaimHead);
    forall i, j | 0 <= i < j < |heads| ensures PeriodKey(heads[i]) != PeriodKey(heads[j]) {
      assert heads[i] in heads && heads[j] in heads && ClaimKey(heads[i]) != ClaimKey(heads[j]);
      assert Alive(t.claims)[ClaimKey(heads[i])] == heads[i] && Alive(t.claims)[ClaimKey(heads[j])] == heads[j];
    }
    HeadsDifferIff(Live(db.claims), ClaimHead, PeriodKey, PeriodKey);
  }

  lemma ShownIsWhole(rows: BaselineRows)
    ensures BaselineWhole(Exported(rows))
  {
    var b := Exported(rows);
    assert b.physical.Keys == rows.stock.Keys == b.sap.Keys;
    forall p | p in b.party ensures b.party[p] != map[] {
      var k :| k in rows.shares.Keys && k.0 == p;
      assert k == (p, k.1) && k.1 in b.party[p];
    }
  }

  /** What a database lists has keys for keys. */
  lemma OwnKeysAreKeys(db: Db, t: Tables)
    requires IsListing(db, t) && IndexesHold(t)
    ensures KeysAreKeys(LivePlan(db))
  {
    OwnPeriodsDiffer(db, t);
    HeadsDifferIff(Live(db.schemes), RowsOfScheme, SchemeKey, SchemeId);
    HeadsDifferIff(Live(db.purchases), PurchaseHead, PurchaseKey, PurchaseKey);
    HeadsDifferIff(Live(db.claims), ClaimHead, ClaimKey, ClaimKey);
    if t.baseline.Some? { ShownIsWhole(t.baseline.value.row); }
  }

  lemma OwnPlanIsStorableIff(db: Db, t: Tables)
    requires IsListing(db, t) && IndexesHold(t)
    ensures var plan := LivePlan(db);
            Storable(plan)
            <==> (plan.baseline.Some? ==> BaselineGradesKnown(plan.baseline.value, OwnRefs(plan).grades))
  {
    OwnSerialsDiffer(db, t);
    OwnPremiumsDiffer(db, t);
  }

  lemma OwnRefsAreLive(db: Db)
    ensures OwnRefs(LivePlan(db)) == LiveRefs(db) && Merged(LiveRefs(db), NO_REFS) == LiveRefs(db)
  {
  }

  lemma OwnFileIsAccepted(db: Db)
    requires WellStored(db) && Importable(db, LiveRefs(db)) && ComesThrough(db, LiveRefs(db))
    ensures KnownTo(Export(db)) == LiveRefs(db) && FaultsOf(Export(db), LiveRefs(db)) == {}
    ensures Planned(Export(db), LiveRefs(db)) == LivePlan(db)
  {
    OwnRefsAreLive(db);
    ExportIsAcceptedIff(db, NO_REFS);
    RoundTripIff(db, NO_REFS);
  }

  /**
   * A firm's own backup, accepted and with nothing cut, restored into an empty firm: it gets through if
   * and only if the baseline names live grades only, and then the new firm lists what the old one did.
   */
  lemma OwnBackupComesBack(t: Tables, db: Db, mode: Mode, db': Db)
    requires IsListing(db, t) && IndexesHold(t) && WellStored(db)
    requires Importable(db, LiveRefs(db)) && ComesThrough(db, LiveRefs(db))
    requires var (t', ok) := Restored(EMPTY_FIRM, mode, Planned(Export(db), KnownTo(Export(db))));
             ok ==> IsListing(db', t')
    ensures var plan := LivePlan(db);
            var ok := Restored(EMPTY_FIRM, mode, Planned(Export(db), KnownTo(Export(db)))).1;
            && Planned(Export(db), KnownTo(Export(db))) == plan
            && (ok <==> (plan.baseline.Some? ==> BaselineGradesKnown(plan.baseline.value, LiveRefs(db).grades)))
            && (ok ==> SamePlan(LivePlan(db'), plan))
  {
    var plan := LivePlan(db);
    OwnRefsAreLive(db);
    OwnFileIsAccepted(db);
    FaultlessPlanIsSound(Export(db), LiveRefs(db));
    RestorePassesIff(plan, mode);
    OwnPlanIsStorableIff(db, t);
    OwnKeysAreKeys(db, t);
    var (t', ok) := Restored(EMPTY_FIRM, mode, plan);
    if ok { SamePlanIff(db', t', plan); }
  }

  // ------------------------------------------------------------------ a firm that is not empty

  lemma {:induction false} AdoptedKeepsOthers<C(!new)>(t: map<int, Child<C>>, rows: seq<Child<C>>,
                                                       key: Child<C> -> int, k: int)
    requires k in t && forall i :: 0 <= i < |rows| ==> key(rows[i]) != k
    ensures k in Adopted(t, rows, key) && Adopted(t, rows, key)[k] == t[k]
  {
    if rows != [] { AdoptedKeepsOthers(t, rows[..|rows| - 1], key, k); }
  }

  predicate PurchaseNamed(purchases: seq<Purchase>, id: int) {
    exists i :: 0 <= i < |purchases| && purchases[i].id == id
  }

  predicate PaymentNamed(purchases: seq<Purchase>, k: int) {
    exists i :: 0 <= i < |purchases| && exists j :: 0 <= j < |purchases[i].payments| && purchases[i].payments[j].id == k
  }

  lemma {:induction false} OldPaymentStays(t: PurchaseTables, purchases: seq<Purchase>, masters: Refs, k: int)
    requires CompaniesThere(purchases, masters) && k in t.1 && !PaymentNamed(purchases, k)
    ensures var all := All(t, purchases, PurchaseStep(masters));
            && all.Some? && k in all.value.1 && all.value.1[k] == t.1[k]
            && forall id :: PurchaseNamed(purchases, id) ==> id in all.value.0 && all.value.0[id].live
  {
    if purchases != [] {
      var front, last := purchases[..|purchases| - 1], purchases[|purchases| - 1];
      assert forall i :: 0 <= i < |front| ==> front[i] == purchases[i];
      OldPaymentStays(t, front, masters, k);
      forall i | 0 <= i < |PaymentsOf(last)| ensures PaymentKey(PaymentsOf(last)[i]) != k {
        assert purchases[|purchases| - 1].payments[i].id == PaymentKey(PaymentsOf(last)[i]);
      }
      AdoptedKeepsOthers(All(t, front, PurchaseStep(masters)).value.1, PaymentsOf(last), PaymentKey, k);
    }
  }

  /**
   * Replacing does not replace payments: one the firm has and the file does not is still there
   * afterwards, and is exported with its purchase if the file has that.
   */
  lemma OldPaymentsSurvive(t: Tables, plan: Plan, k: int)
    requires CompaniesThere(plan.purchases, RefsIn(t)) && k in t.payments && !PaymentNamed(plan.purchases, k)
    ensures var (t', ok) := WithPurchases(t, plan);
            && ok && k in t'.payments && t'.payments[k] == t.payments[k]
            && (PurchaseNamed(plan.purchases, t.payments[k].parent) ==> k in KidsOfLive(t'.payments, t'.purchases))
  {
    OldPaymentStays((t.purchases, t.payments), plan.purchases, RefsIn(t), k);
    CommittedIsAll((t.purchases, t.payments), plan.purchases, PurchaseStep(RefsIn(t)));
  }

  // ------------------------------------------------------------------ an input for each way to differ

  function GradeFile(g: int, name: string, date: int, qty: real): File {
    File([], [], [WireMaster(Uuid(g), Some(name))], [], [], [],
         Some(WireBaseline(Valid(date), map[Uuid(g) := qty], map[], map[])), [], [], [], [], [], [])
  }

  function GradePlan(g: int, name: string, date: int, qty: real): Plan {
    Plan([], [], [Master(g, name)], [], [], [], Some(Baseline(date, map[g := qty], map[], map[])), [], [], [], [], [],
         [])
  }

  lemma OneMaster(table: Table, id: int, name: string)
    requires !Blank(name)
    ensures var rows := [WireMaster(Uuid(id), Some(name))];
            && Complaints(table, rows, MasterParser()) == {}
            && Collected(rows, MasterParser()) == [Master(id, name)]
  {
    var w := WireMaster(Uuid(id), Some(name));
    assert [w][..0] == [];
    assert FaultsAt(table, 0, MasterParser()(w).faults) == {};
  }

  lemma OneGrade(g: int, date: int, qty: real, known: Refs)
    ensures ParseBaseline(WireBaseline(Valid(date), map[Uuid(g) := qty], map[], map[]), known)
         == Parsed(Some(Baseline(date, map[g := qty], map[], map[])), {})
  {
    var m := map[Uuid(g) := qty];
    assert forall k :: k in Plain(m.Keys) <==> k == g;
    assert CleanGrades(m) == map[g := qty] && CleanGrades(map[]) == map[];
    assert CleanParty(map[], known.parties) == map[];
  }

  lemma OneGradeShown(g: int, date: int, qty: real)
    ensures var b := Baseline(date, map[g := qty], map[], map[]);
            !BaselineWhole(b) && BaselineGradesKnown(b, {g}) && Exported(RowsOfBaseline(b)).sap == map[g := 0.0]
  {
    var b := Baseline(date, map[g := qty], map[], map[]);
    assert g in b.physical && g !in b.sap;
    assert RowsOfBaseline(b).stock == map[g := (qty, 0.0)];
  }

  lemma GradeFileIsPlanned(g: int, name: string, date: int, qty: real)
    requires !Blank(name)
    ensures var file := GradeFile(g, name, date, qty);
            FaultsOf(file, KnownTo(file)) == {} && Planned(file, KnownTo(file)) == GradePlan(g, name, date, qty)
  {
    var file := GradeFile(g, name, date, qty);
    OneMaster(Grades, g, name);
    OneGrade(g, date, qty, KnownTo(file));
    OneBaseline(file.baseline.value, KnownTo(file));
    assert MasterFaults(file) == {};
    assert RepeatedDates([]) == {} && RepeatedSerials([]) == {};
    assert RecordFaults(file, KnownTo(file)) == {};
  }

  lemma GradePlanIsStorable(g: int, name: string, date: int, qty: real)
    ensures Storable(GradePlan(g, name, date, qty))
  {
    var plan := GradePlan(g, name, date, qty);
    OneGradeShown(g, date, qty);
    assert plan.grades[0] in plan.grades;
    assert OwnRefs(plan).grades == {g};
    assert Flat(plan.days, ReceiptsOf) == [] && NumberedOf(plan.entries) == [];
  }

  lemma NotWholeIsNotKept(plan: Plan)
    requires plan.baseline.Some? && !BaselineWhole(plan.baseline.value)
    ensures !KeysAreKeys(plan)
  {
  }

  /** A baseline with a physical stock and none in the other books is planned so, and comes back with a zero. */
  lemma MissingSapComesBackAsZero(g: int, name: string, date: int, qty: real)
    requires !Blank(name)
    ensures var file, plan := GradeFile(g, name, date, qty), GradePlan(g, name, date, qty);
            && FaultsOf(file, KnownTo(file)) == {} && Planned(file, KnownTo(file)) == plan
            && Storable(plan) && !KeysAreKeys(plan)
            && Exported(RowsOfBaseline(plan.baseline.value)).sap == map[g := 0.0]
  {
    GradeFileIsPlanned(g, name, date, qty);
    OneGradeShown(g, date, qty);
    GradePlanIsStorable(g, name, date, qty);
    NotWholeIsNotKept(GradePlan(g, name, date, qty));
  }
}
