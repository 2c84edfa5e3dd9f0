/**
 * The order in which a push runs a batch of mutations, one transaction per entity group, and what
 * a failed group does to the others.
 */
module PushSchedule {
  import opened Common

  datatype Entity =
    | Grades | Parties | Locations | Companies | Sources | Routes | Baseline
    | StockDays | FreightEntries | SchemeFolders | Schemes | Purchases | PurchasePayments | Claims | ClaimCreditNotes
    | Labours | DepotSettings | DepotTrucks | DepotDispatches | DepotAdjustments
    | MaterialItems | MaterialMoves | DepotDayNotes | SteelTests | SteelBrands | SteelEstimates
    | Unknown(name: string)

  const GROUP_ORDER: seq<Entity> := [
    Grades, Parties, Locations, Companies, Sources, Routes, Baseline,
    StockDays, FreightEntries, SchemeFolders, Schemes, Purchases, PurchasePayments, Claims, ClaimCreditNotes,
    Labours, DepotSettings, DepotTrucks, DepotDispatches, DepotAdjustments,
    MaterialItems, MaterialMoves, DepotDayNotes, SteelTests, SteelBrands, SteelEstimates]

  datatype Op = Upsert | Delete

  datatype Mutation = Mutation(op: Op, entity: Entity, id: string, data: int)

  function Is(m: Mutation, e: Entity, op: Op): bool { m.entity == e && m.op == op }

  /** The mutations of one entity and operation, in the order they came. */
  function Only(ms: seq<Mutation>, e: Entity, op: Op): seq<Mutation> {
    if ms == [] then []
    else Only(ms[..|ms| - 1], e, op) + if Is(ms[|ms| - 1], e, op) then [ms[|ms| - 1]] else []
  }

  function Of(ms: seq<Mutation>, e: Entity): seq<Mutation> {
    if ms == [] then []
    else Of(ms[..|ms| - 1], e) + if ms[|ms| - 1].entity == e then [ms[|ms| - 1]] else []
  }

  datatype Group = Group(entity: Entity, members: seq<Mutation>)

  function Groups(order: seq<Entity>, ms: seq<Mutation>, op: Op): seq<Group> {
    if order == [] then []
    else
      var e := order[|order| - 1];
      Groups(order[..|order| - 1], ms, op) + if Only(ms, e, op) != [] then [Group(e, Only(ms, e, op))] else []
  }

  function Reversed<T>(s: seq<T>): (r: seq<T>)
    ensures |r| == |s| && forall i :: 0 <= i < |s| ==> r[i] == s[|s| - 1 - i]
  {
    seq(|s|, i requires 0 <= i < |s| => s[|s| - 1 - i])
  }

  /** Upserts group by group, then deletes the other way round: children go before their parents. */
  function Plan(order: seq<Entity>, ms: seq<Mutation>): seq<Group> {
    Groups(order, ms, Upsert) + Groups(Reversed(order), ms, Delete)
  }

  function Flat(groups: seq<Group>): seq<Mutation> {
    if groups == [] then [] else Flat(groups[..|groups| - 1]) + groups[|groups| - 1].members
  }

  // ------------------------------------------------------------------ building the plan

  lemma {:induction false} OnlyWithin(ms: seq<Mutation>, e: Entity, op: Op)
    ensures Only(Of(ms, e), e, op) == Only(ms, e, op)
  {
    if ms != [] {
      var front, last := ms[..|ms| - 1], ms[|ms| - 1];
      OnlyWithin(front, e, op);
      if last.entity == e {
        assert (Of(front, e) + [last])[..|Of(front, e)|] == Of(front, e);
      } else {
        assert Of(front, e) + [] == Of(front, e);
        assert Only(front, e, op) + [] == Only(front, e, op);
      }
    }
  }

  lemma OfOneMore(ms: seq<Mutation>, k: nat, e: Entity)
    requires k < |ms|
    ensures Of(ms[..k + 1], e) == Of(ms[..k], e) + if ms[k].entity == e then [ms[k]] else []
  {
    assert ms[..k + 1][..k] == ms[..k];
  }

  method ByEntity(ms: seq<Mutation>) returns (byEntity: map<Entity, seq<Mutation>>)
    ensures forall e :: e in byEntity <==> Of(ms, e) != []
    ensures forall e :: e in byEntity ==> byEntity[e] == Of(ms, e)
  {
    byEntity := map[];
    for k := 0 to |ms|
      invariant forall e :: e in byEntity <==> Of(ms[..k], e) != []
      invariant forall e :: e in byEntity ==> byEntity[e] == Of(ms[..k], e)
    {
      var m := ms[k];
      forall e ensures Of(ms[..k + 1], e) == Of(ms[..k], e) + if m.entity == e then [m] else [] {
        OfOneMore(ms, k, e);
      }
      if m.entity !in byEntity {
        byEntity := byEntity[m.entity := []];
      }
      byEntity := byEntity[m.entity := byEntity[m.entity] + [m]];
    }
    assert ms[..|ms|] == ms;
  }

  method Filter(ms: seq<Mutation>, e: Entity, op: Op) returns (kept: seq<Mutation>)
    requires forall m :: m in ms ==> m.entity == e
    ensures kept == Only(ms, e, op)
  {
    kept := [];
    for k := 0 to |ms|
      invariant kept == Only(ms[..k], e, op)
    {
      assert ms[..k + 1][..k] == ms[..k];
      assert ms[k] in ms;
      if ms[k].op == op { kept := kept + [ms[k]]; }
    }
    assert ms[..|ms|] == ms;
  }

  lemma {:induction false} OfIsOf(ms: seq<Mutation>, e: Entity)
    ensures forall m :: m in Of(ms, e) ==> m.entity == e
  {
    if ms != [] { OfIsOf(ms[..|ms| - 1], e); }
  }

  lemma NothingOf(ms: seq<Mutation>, e: Entity, op: Op)
    requires Of(ms, e) == []
    ensures Only(ms, e, op) == []
  {
    OnlyWithin(ms, e, op);
  }

  lemma GroupsOneMore(order: seq<Entity>, k: nat, ms: seq<Mutation>, op: Op)
    requires k < |order|
    ensures Groups(order[..k + 1], ms, op)
         == Groups(order[..k], ms, op)
            + if Only(ms, order[k], op) != [] then [Group(order[k], Only(ms, order[k], op))] else []
  {
    assert order[..k + 1][..k] == order[..k];
  }

  method MakeGroups(order: seq<Entity>, ms: seq<Mutation>, byEntity: map<Entity, seq<Mutation>>, op: Op)
    returns (groups: seq<Group>)
    requires forall e :: e in byEntity <==> Of(ms, e) != []
    requires forall e :: e in byEntity ==> byEntity[e] == Of(ms, e)
    ensures groups == Groups(order, ms, op)
  {
    groups := [];
    for k := 0 to |order|
      invariant groups == Groups(order[..k], ms, op)
    {
      GroupsOneMore(order, k, ms, op);
      var e := order[k];
      if e in byEntity {
        OfIsOf(ms, e);
        OnlyWithin(ms, e, op);
        var kept := Filter(byEntity[e], e, op);
        if kept != [] { groups := groups + [Group(e, kept)]; }
      } else {
        NothingOf(ms, e, op);
        assert groups + [] == groups;
      }
    }
    assert order[..|order|] == order;
  }

  // ------------------------------------------------------------------ the plan is the stable sort

  function Pos(order: seq<Entity>, e: Entity): nat {
    if order == [] then 0 else if order[0] == e then 0 else 1 + Pos(order[1..], e)
  }

  /** Where a mutation belongs: upserts in group order, after them deletes in reverse group order. */
  function Rank(order: seq<Entity>, m: Mutation): int {
    if m.op.Upsert? then Pos(order, m.entity) else 2 * |order| - 1 - Pos(order, m.entity)
  }

  ghost predicate ByRank(order: seq<Entity>, s: seq<Mutation>) {
    forall i, j :: 0 <= i < j < |s| ==> Rank(order, s[i]) <= Rank(order, s[j])
  }

  predicate AllKnown(order: seq<Entity>, s: seq<Mutation>) { forall m :: m in s ==> m.entity in order }

  /** `s` holds what `ms` holds of every known entity, each entity and operation in its own order. */
  ghost predicate KeepsEach(order: seq<Entity>, s: seq<Mutation>, ms: seq<Mutation>) {
    forall e, op :: e in order ==> Only(s, e, op) == Only(ms, e, op)
  }

  lemma {:induction false} PosIs(order: seq<Entity>, e: Entity)
    ensures e in order ==> Pos(order, e) < |order| && order[Pos(order, e)] == e
    ensures e !in order ==> Pos(order, e) == |order|
  {
    if order != [] && order[0] != e {
      PosIs(order[1..], e);
      assert forall x :: x in order <==> x == order[0] || x in order[1..];
    }
  }

  lemma PosAt(order: seq<Entity>, k: nat)
    requires Distinct(order) && k < |order|
    ensures Pos(order, order[k]) == k
  {
    PosIs(order, order[k]);
  }

  lemma {:induction false} OnlyOfJoin(a: seq<Mutation>, b: seq<Mutation>, e: Entity, op: Op)
    ensures Only(a + b, e, op) == Only(a, e, op) + Only(b, e, op)
  {
    if b == [] {
      assert a + b == a;
    } else {
      var front, last := b[..|b| - 1], b[|b| - 1];
      OnlyOfJoin(a, front, e, op);
      assert (a + b)[..|a + b| - 1] == a + front;
    }
  }

  lemma FlatSnoc(groups: seq<Group>, g: Group)
    ensures Flat(groups + [g]) == Flat(groups) + g.members
  {
    assert (groups + [g])[..|groups|] == groups;
  }

  lemma {:induction false} FlatOfJoin(a: seq<Group>, b: seq<Group>)
    ensures Flat(a + b) == Flat(a) + Flat(b)
  {
    if b == [] {
      assert a + b == a;
    } else {
      var front, last := b[..|b| - 1], b[|b| - 1];
      FlatOfJoin(a, front);
      Regroup(a, front, [last]);
      assert b == front + [last];
      FlatSnoc(a + front, last);
      FlatSnoc(front, last);
      Regroup(Flat(a), Flat(front), last.members);
    }
  }

  lemma {:induction false} OnlyAre(ms: seq<Mutation>, e: Entity, op: Op)
    ensures forall m :: m in Only(ms, e, op) ==> Is(m, e, op) && m in ms
  {
    if ms != [] {
      OnlyAre(ms[..|ms| - 1], e, op);
      assert ms == ms[..|ms| - 1] + [ms[|ms| - 1]];
    }
  }

  lemma OnlySnoc(ms: seq<Mutation>, m: Mutation, e: Entity, op: Op)
    ensures Only(ms + [m], e, op) == if Is(m, e, op) then Only(ms, e, op) + [m] else Only(ms, e, op)
  {
    assert (ms + [m])[..|ms|] == ms;
  }

  lemma {:induction false} OnlyTwice(ms: seq<Mutation>, e: Entity, op: Op, e': Entity, op': Op)
    ensures Only(Only(ms, e, op), e', op') == if e == e' && op == op' then Only(ms, e, op) else []
  {
    if ms != [] {
      var front, last := Only(ms[..|ms| - 1], e, op), ms[|ms| - 1];
      OnlyTwice(ms[..|ms| - 1], e, op, e', op');
      if Is(last, e, op) { OnlySnoc(front, last, e', op'); } else { assert front + [] == front; }
    }
  }

  lemma InSnoc<T>(front: seq<T>, last: T, x: T)
    ensures x in front + [last] <==> x in front || x == last
  {
  }

  lemma OnlyOfOneMore(front: seq<Entity>, last: Entity, before: seq<Mutation>, ms: seq<Mutation>, half: Op, e: Entity,
                      op: Op)
    requires last !in front
    requires Only(before, e, op) == if e in front && op == half then Only(ms, e, op) else []
    ensures Only(before + Only(ms, last, half), e, op)
         == if e in front + [last] && op == half then Only(ms, e, op) else []
  {
    var more := Only(Only(ms, last, half), e, op);
    OnlyOfJoin(before, Only(ms, last, half), e, op);
    InSnoc(front, last, e);
    if e == last && op == half {
      assert more == Only(ms, e, op) by { OnlyTwice(ms, last, half, e, op); }
      assert [] + more == more;
    } else {
      assert more == [] by { OnlyTwice(ms, last, half, e, op); }
      assert Only(before, e, op) + [] == Only(before, e, op);
    }
  }

  lemma FlatOneMore(order: seq<Entity>, ms: seq<Mutation>, half: Op)
    requires order != []
    ensures Flat(Groups(order, ms, half))
         == Flat(Groups(order[..|order| - 1], ms, half)) + Only(ms, order[|order| - 1], half)
  {
    var front, last := order[..|order| - 1], order[|order| - 1];
    var groups, kept := Groups(front, ms, half), Only(ms, last, half);
    if kept != [] {
      FlatSnoc(groups, Group(last, kept));
    } else {
      assert groups + [] == groups;
    }
  }

  /** One half of the plan holds exactly its own operation, entity by entity. */
  lemma {:induction false} HalfKeeps(order: seq<Entity>, ms: seq<Mutation>, half: Op, e: Entity, op: Op)
    requires Distinct(order)
    ensures Only(Flat(Groups(order, ms, half)), e, op) == if e in order && op == half then Only(ms, e, op) else []
  {
    if order != [] {
      var front, last := order[..|order| - 1], order[|order| - 1];
      assert order == front + [last];
      assert last !in front;
      HalfKeeps(front, ms, half, e, op);
      FlatOneMore(order, ms, half);
      OnlyOfOneMore(front, last, Flat(Groups(front, ms, half)), ms, half, e, op);
    }
  }

  ghost predicate Through(order: seq<Entity>, s: seq<Mutation>, op: Op) {
    && (forall m :: m in s ==> m.entity in order && m.op == op)
    && forall i, j :: 0 <= i < j < |s| ==> Pos(order, s[i].entity) <= Pos(order, s[j].entity)
  }

  lemma PosInPrefix(front: seq<Entity>, last: Entity)
    requires Distinct(front + [last])
    ensures forall e :: e in front ==> Pos(front + [last], e) == Pos(front, e) < |front|
    ensures Pos(front + [last], last) == |front|
  {
    forall e | e in front ensures Pos(front + [last], e) == Pos(front, e) < |front| {
      PosIs(front, e);
      PosAt(front + [last], Pos(front, e));
    }
    PosAt(front + [last], |front|);
  }

  lemma ThroughOneMore(front: seq<Entity>, last: Entity, s: seq<Mutation>, more: seq<Mutation>, op: Op)
    requires Distinct(front + [last]) && Through(front, s, op) && forall m :: m in more ==> Is(m, last, op)
    ensures Through(front + [last], s + more, op)
  {
    PosInPrefix(front, last);
    var t := s + more;
    forall i | 0 <= i < |t| ensures t[i].op == op && t[i].entity in front + [last]
                                    && (i >= |s| ==> t[i].entity == last)
                                    && (i < |s| ==> t[i] == s[i] && t[i].entity in front)
    {
      if i >= |s| { assert t[i] in more; } else { assert t[i] in s; }
    }
  }

  /** One half of the plan runs through the entities in the order given. */
  lemma {:induction false} HalfInOrder(order: seq<Entity>, ms: seq<Mutation>, half: Op)
    requires Distinct(order)
    ensures Through(order, Flat(Groups(order, ms, half)), half)
  {
    if order != [] {
      var front, last := order[..|order| - 1], order[|order| - 1];
      assert order == front + [last];
      HalfInOrder(front, ms, half);
      FlatOneMore(order, ms, half);
      OnlyAre(ms, last, half);
      ThroughOneMore(front, last, Flat(Groups(front, ms, half)), Only(ms, last, half), half);
    }
  }

  lemma ReversedPos(order: seq<Entity>, e: Entity)
    requires Distinct(order) && e in order
    ensures e in Reversed(order) && Pos(Reversed(order), e) == |order| - 1 - Pos(order, e)
    ensures Distinct(Reversed(order))
  {
    PosIs(order, e);
    var k := |order| - 1 - Pos(order, e);
    assert Reversed(order)[k] == e;
    PosAt(Reversed(order), k);
  }

  lemma PlanKeepsEach(order: seq<Entity>, ms: seq<Mutation>, e: Entity, op: Op)
    requires Distinct(order) && e in order
    ensures Only(Flat(Plan(order, ms)), e, op) == Only(ms, e, op)
  {
    FlatOfJoin(Groups(order, ms, Upsert), Groups(Reversed(order), ms, Delete));
    ReversedPos(order, e);
    HalfKeeps(order, ms, Upsert, e, op);
    HalfKeeps(Reversed(order), ms, Delete, e, op);
    OnlyOfJoin(Flat(Groups(order, ms, Upsert)), Flat(Groups(Reversed(order), ms, Delete)), e, op);
  }

  lemma HalvesByRank(order: seq<Entity>, ups: seq<Mutation>, downs: seq<Mutation>)
    requires Distinct(order) && Through(order, ups, Upsert) && Through(Reversed(order), downs, Delete)
    ensures ByRank(order, ups + downs) && AllKnown(order, ups + downs)
  {
    forall m | m in ups ensures m.entity in order && 0 <= Rank(order, m) < |order| {
      PosIs(order, m.entity);
    }
    forall m | m in downs ensures m.entity in order && Rank(order, m) == |order| + Pos(Reversed(order), m.entity) {
      assert m.entity in Reversed(order);
      ReversedPos(order, m.entity);
    }
    var s := ups + downs;
    forall i, j | 0 <= i < j < |s| ensures Rank(order, s[i]) <= Rank(order, s[j]) {
      assert i < |ups| ==> s[i] == ups[i] && ups[i] in ups;
      assert j < |ups| ==> s[j] == ups[j] && ups[j] in ups;
      assert i >= |ups| ==> s[i] == downs[i - |ups|] && downs[i - |ups|] in downs;
      assert j >= |ups| ==> s[j] == downs[j - |ups|] && downs[j - |ups|] in downs;
    }
  }

  lemma ReversedDistinct(order: seq<Entity>)
    requires Distinct(order)
    ensures Distinct(Reversed(order))
  {
  }

  /** The plan runs exactly the mutations of known entities, in rank order, stable within a rank. */
  lemma PlanIsStableSort(order: seq<Entity>, ms: seq<Mutation>)
    requires Distinct(order)
    ensures var s := Flat(Plan(order, ms));
            ByRank(order, s) && AllKnown(order, s) && KeepsEach(order, s, ms)
  {
    forall e, op | e in order ensures Only(Flat(Plan(order, ms)), e, op) == Only(ms, e, op) {
      PlanKeepsEach(order, ms, e, op);
    }
    ReversedDistinct(order);
    HalfInOrder(order, ms, Upsert);
    HalfInOrder(Reversed(order), ms, Delete);
    HalvesByRank(order, Flat(Groups(order, ms, Upsert)), Flat(Groups(Reversed(order), ms, Delete)));
    FlatOfJoin(Groups(order, ms, Upsert), Groups(Reversed(order), ms, Delete));
  }

  lemma SameRankSameGroup(order: seq<Entity>, x: Mutation, y: Mutation)
    requires x.entity in order && y.entity in order && Rank(order, x) == Rank(order, y)
    ensures x.entity == y.entity && x.op == y.op
  {
    PosIs(order, x.entity);
    PosIs(order, y.entity);
  }

  /** Something of the same group ends up in `t` too, so t's last rank is no lower. */
  lemma LastIsLast(order: seq<Entity>, s: seq<Mutation>, t: seq<Mutation>)
    requires s != [] && AllKnown(order, s) && ByRank(order, t) && KeepsEach(order, s, t)
    ensures t != [] && Rank(order, s[|s| - 1]) <= Rank(order, t[|t| - 1])
  {
    var x := s[|s| - 1];
    assert x in s;
    var held := Only(t, x.entity, x.op);
    assert Only(s, x.entity, x.op) == held;
    assert held[|held| - 1] == x;
    OnlyAre(t, x.entity, x.op);
    assert x in t;
  }

  lemma SnocInjective<T>(a: seq<T>, x: T, b: seq<T>, y: T)
    ensures a + [x] == b + [y] ==> a == b && x == y
  {
    if a + [x] == b + [y] {
      assert |a| == |b|;
      assert (a + [x])[..|a|] == a && (b + [y])[..|b|] == b;
      assert (a + [x])[|a|] == x && (b + [y])[|b|] == y;
    }
  }

  lemma SameLast(order: seq<Entity>, s: seq<Mutation>, x: Mutation, t: seq<Mutation>, y: Mutation)
    requires KeepsEach(order, s + [x], t + [y]) && x.entity == y.entity && x.op == y.op && x.entity in order
    ensures x == y && KeepsEach(order, s, t)
  {
    forall e, op | e in order ensures Only(s, e, op) == Only(t, e, op) && (Is(x, e, op) ==> x == y) {
      assert Only(s + [x], e, op) == Only(t + [y], e, op);
      OnlySnoc(s, x, e, op);
      OnlySnoc(t, y, e, op);
      SnocInjective(Only(s, e, op), x, Only(t, e, op), y);
    }
    assert Is(x, x.entity, x.op);
  }

  /** And there is no other such sequence: the three properties determine the whole schedule. */
  lemma {:induction false} StableSortIsUnique(order: seq<Entity>, s: seq<Mutation>, t: seq<Mutation>)
    requires Distinct(order)
    requires ByRank(order, s) && AllKnown(order, s)
    requires ByRank(order, t) && AllKnown(order, t)
    requires KeepsEach(order, s, t)
    ensures s == t
    decreases |s|
  {
    if s == [] {
      if t != [] { LastIsLast(order, t, s); }
    } else {
      LastIsLast(order, s, t);
      LastIsLast(order, t, s);
      var s', t', x, y := s[..|s| - 1], t[..|t| - 1], s[|s| - 1], t[|t| - 1];
      assert s == s' + [x] && t == t' + [y] && x in s && y in t;
      SameRankSameGroup(order, x, y);
      SameLast(order, s', x, t', y);
      StableSortIsUnique(order, s', t');
    }
  }

  lemma {:induction false} CountInOnly(s: seq<Mutation>, m: Mutation)
    ensures multiset(s)[m] == multiset(Only(s, m.entity, m.op))[m]
  {
    if s != [] {
      var front, last := s[..|s| - 1], s[|s| - 1];
      CountInOnly(front, m);
      assert s == front + [last];
    }
  }

  function Known(order: seq<Entity>, ms: seq<Mutation>): seq<Mutation> {
    if ms == [] then []
    else Known(order, ms[..|ms| - 1]) + if ms[|ms| - 1].entity in order then [ms[|ms| - 1]] else []
  }

  lemma {:induction false} KnownKeeps(order: seq<Entity>, ms: seq<Mutation>)
    ensures AllKnown(order, Known(order, ms)) && KeepsEach(order, Known(order, ms), ms)
    ensures |Known(order, ms)| <= |ms|
    ensures |Known(order, ms)| == |ms| <==> AllKnown(order, ms)
  {
    if ms != [] {
      var front, last := ms[..|ms| - 1], ms[|ms| - 1];
      KnownKeeps(order, front);
      assert ms == front + [last];
      forall e, op | e in order ensures Only(Known(order, ms), e, op) == Only(ms, e, op) {
        OnlyOfJoin(Known(order, front), if last.entity in order then [last] else [], e, op);
        OnlyOfJoin(front, [last], e, op);
      }
    }
  }

  /** The schedule is a permutation of the mutations whose entity is known. */
  lemma PlanIsPermutation(order: seq<Entity>, ms: seq<Mutation>)
    requires Distinct(order)
    ensures multiset(Flat(Plan(order, ms))) == multiset(Known(order, ms))
  {
    var s, known := Flat(Plan(order, ms)), Known(order, ms);
    PlanIsStableSort(order, ms);
    KnownKeeps(order, ms);
    forall m ensures multiset(s)[m] == multiset(known)[m] {
      CountInOnly(s, m);
      CountInOnly(known, m);
      if m.entity !in order {
        assert m !in s && m !in known;
      } else {
        assert Only(s, m.entity, m.op) == Only(known, m.entity, m.op);
      }
    }
  }

  lemma GroupOrderIsDistinct()
    ensures Distinct(GROUP_ORDER)
    ensures forall e :: e in GROUP_ORDER <==> !e.Unknown?
  {
    assert forall i, j :: 0 <= i < j < |GROUP_ORDER| ==> GROUP_ORDER[i] != GROUP_ORDER[j];
  }

  /** Rows of the one entity name rows of the other, by a foreign key or in the diary's own way. */
  predicate NamesRowsOf(child: Entity, parent: Entity) {
    match child
    case Routes => parent == Parties || parent == Locations
    case Baseline => parent == Grades || parent == Parties
    case StockDays => parent == Grades || parent == Parties || parent == Baseline
    case FreightEntries => parent == Parties || parent == Locations
    case Schemes => parent == Companies || parent == Grades || parent == Sources || parent == SchemeFolders
    case Purchases => parent == Companies || parent == Grades || parent == Sources
    case PurchasePayments => parent == Purchases
    case Claims => parent == Schemes || parent == Companies
    case ClaimCreditNotes => parent == Claims
    case DepotTrucks => parent == Labours
    case DepotDispatches => parent == Labours || parent == DepotTrucks
    case DepotAdjustments => parent == Labours
    case MaterialMoves => parent == MaterialItems
    case SteelEstimates => parent == SteelBrands
    case _ => false
  }

  /** Where an entity stands in the order. */
  function Place(e: Entity): nat {
    match e
    case Grades => 0 case Parties => 1 case Locations => 2 case Companies => 3 case Sources => 4 case Routes => 5
    case Baseline => 6 case StockDays => 7 case FreightEntries => 8 case SchemeFolders => 9 case Schemes => 10
    case Purchases => 11 case PurchasePayments => 12 case Claims => 13 case ClaimCreditNotes => 14 case Labours => 15
    case DepotSettings => 16 case DepotTrucks => 17 case DepotDispatches => 18 case DepotAdjustments => 19
    case MaterialItems => 20 case MaterialMoves => 21 case DepotDayNotes => 22 case SteelTests => 23
    case SteelBrands => 24 case SteelEstimates => 25 case Unknown(_) => 26
  }

  lemma PlaceIs(e: Entity)
    requires !e.Unknown?
    ensures Place(e) < |GROUP_ORDER| && GROUP_ORDER[Place(e)] == e
  {
  }

  ghost predicate Places(order: seq<Entity>) {
    forall e: Entity :: !e.Unknown? ==> Place(e) < |order| && order[Place(e)] == e
  }

  lemma GroupOrderPlaces()
    ensures Places(GROUP_ORDER)
  {
    forall e: Entity | !e.Unknown? ensures Place(e) < |GROUP_ORDER| && GROUP_ORDER[Place(e)] == e {
      PlaceIs(e);
    }
  }

  lemma ParentStandsFirst(order: seq<Entity>, child: Entity, parent: Entity)
    requires Distinct(order) && Places(order) && NamesRowsOf(child, parent)
    ensures Pos(order, parent) < Pos(order, child)
  {
    PosAt(order, Place(child));
    PosAt(order, Place(parent));
  }

  lemma LowerRankFirst(order: seq<Entity>, s: seq<Mutation>, i: nat, j: nat)
    requires ByRank(order, s) && i < |s| && j < |s| && s[i].op == s[j].op
    requires Pos(order, s[i].entity) < Pos(order, s[j].entity)
    ensures if s[i].op.Upsert? then i < j else j < i
  {
    if i < j {
      assert Rank(order, s[i]) <= Rank(order, s[j]);
    } else if j < i {
      assert Rank(order, s[j]) <= Rank(order, s[i]);
    }
  }

  /** A row and the rows that name it, in one push: it is written before them, and deleted after them. */
  lemma ParentsGoFirst(order: seq<Entity>, ms: seq<Mutation>, i: nat, j: nat)
    requires order == GROUP_ORDER && i < |Flat(Plan(order, ms))| && j < |Flat(Plan(order, ms))|
    requires var s := Flat(Plan(order, ms)); NamesRowsOf(s[j].entity, s[i].entity) && s[i].op == s[j].op
    ensures if Flat(Plan(order, ms))[i].op.Upsert? then i < j else j < i
  {
    var s := Flat(Plan(order, ms));
    GroupOrderIsDistinct();
    GroupOrderPlaces();
    PlanIsStableSort(order, ms);
    ParentStandsFirst(order, s[j].entity, s[i].entity);
    LowerRankFirst(order, s, i, j);
  }

  // ------------------------------------------------------------------ running it

  datatype Outcome<A> = Answer(of: Mutation, answer: A) | GroupFailed(of: Mutation)

  /** One mutation after another; `applyOne` turns its own failures into answers. */
  function ApplyAll<W, A>(w: W, ms: seq<Mutation>, applyOne: (W, Mutation) -> (W, A)): (W, seq<Outcome<A>>) {
    if ms == [] then (w, [])
    else
      var (before, outs) := ApplyAll(w, ms[..|ms| - 1], applyOne);
      var (after, a) := applyOne(before, ms[|ms| - 1]);
      (after, outs + [Answer(ms[|ms| - 1], a)])
  }

  function AllFailed<A>(ms: seq<Mutation>): seq<Outcome<A>> {
    seq(|ms|, i requires 0 <= i < |ms| => GroupFailed(ms[i]))
  }

  /** `commits(k)`: the transaction of the k-th group goes through. One that does not is rolled back whole. */
  function Execute<W, A>(w: W, groups: seq<Group>, applyOne: (W, Mutation) -> (W, A), commits: nat -> bool)
    : (W, seq<Outcome<A>>)
  {
    if groups == [] then (w, [])
    else
      var (before, outs) := Execute(w, groups[..|groups| - 1], applyOne, commits);
      var g := groups[|groups| - 1];
      if commits(|groups| - 1) then
        var (after, inner) := ApplyAll(before, g.members, applyOne);
        (after, outs + inner)
      else (before, outs + AllFailed(g.members))
  }

  class Server<W, A> {
    var world: W
    const applyOne: (W, Mutation) -> (W, A)
    const commits: nat -> bool

    constructor (world: W, applyOne: (W, Mutation) -> (W, A), commits: nat -> bool)
      ensures this.world == world && this.applyOne == applyOne && this.commits == commits
    {
      this.world, this.applyOne, this.commits := world, applyOne, commits;
    }

    /** One group's transaction: its effects appear together or not at all. */
    method RunGroup(k: nat, g: Group) returns (outcomes: seq<Outcome<A>>)
      modifies this`world
      ensures commits(k) ==> (world, outcomes) == ApplyAll(old(world), g.members, applyOne)
      ensures !commits(k) ==> world == old(world) && outcomes == AllFailed(g.members)
    {
      var w := world;
      var inner: seq<Outcome<A>> := [];
      for i := 0 to |g.members|
        invariant (w, inner) == ApplyAll(old(world), g.members[..i], applyOne)
        invariant world == old(world)
      {
        assert g.members[..i + 1][..i] == g.members[..i];
        var (after, a) := applyOne(w, g.members[i]);
        w, inner := after, inner + [Answer(g.members[i], a)];
      }
      assert g.members[..|g.members|] == g.members;
      if commits(k) {
        world, outcomes := w, inner;
      } else {
        outcomes := AllFailed(g.members);
      }
    }

    method Push(ms: seq<Mutation>) returns (outcomes: seq<Outcome<A>>)
      modifies this`world
      ensures (world, outcomes) == Execute(old(world), Plan(GROUP_ORDER, ms), applyOne, commits)
    {
      var byEntity := ByEntity(ms);
      var upserts := MakeGroups(GROUP_ORDER, ms, byEntity, Upsert);
      var deletes := MakeGroups(Reversed(GROUP_ORDER), ms, byEntity, Delete);
      var groups := upserts + deletes;
      outcomes := [];
      for k := 0 to |groups|
        invariant (world, outcomes) == Execute(old(world), groups[..k], applyOne, commits)
      {
        assert groups[..k + 1][..k] == groups[..k];
        var out := RunGroup(k, groups[k]);
        outcomes := outcomes + out;
      }
      assert groups[..|groups|] == groups;
    }
  }

  lemma JoinMatch<A>(outs: seq<Outcome<A>>, ms: seq<Mutation>, more: seq<Outcome<A>>, members: seq<Mutation>)
    requires |outs| == |ms| && forall i :: 0 <= i < |outs| ==> outs[i].of == ms[i]
    requires |more| == |members| && forall i :: 0 <= i < |more| ==> more[i].of == members[i]
    ensures |outs + more| == |ms + members|
    ensures forall i :: 0 <= i < |outs + more| ==> (outs + more)[i].of == (ms + members)[i]
  {
  }

  lemma {:induction false} AnswersMatch<W, A>(w: W, ms: seq<Mutation>, applyOne: (W, Mutation) -> (W, A))
    ensures var outs := ApplyAll(w, ms, applyOne).1;
            |outs| == |ms| && forall i :: 0 <= i < |outs| ==> outs[i].Answer? && outs[i].of == ms[i]
  {
    if ms != [] { AnswersMatch(w, ms[..|ms| - 1], applyOne); }
  }

  /** One outcome for every scheduled mutation, in schedule order. */
  lemma {:induction false} OutcomesMatch<W, A>(w: W, groups: seq<Group>, applyOne: (W, Mutation) -> (W, A),
                                               commits: nat -> bool)
    ensures var outs := Execute(w, groups, applyOne, commits).1;
            |outs| == |Flat(groups)| && forall i :: 0 <= i < |outs| ==> outs[i].of == Flat(groups)[i]
  {
    if groups != [] {
      var front, g := groups[..|groups| - 1], groups[|groups| - 1];
      var (before, outs) := Execute(w, front, applyOne, commits);
      OutcomesMatch(w, front, applyOne, commits);
      AnswersMatch(before, g.members, applyOne);
      var more: seq<Outcome<A>> :=
        if commits(|groups| - 1) then ApplyAll(before, g.members, applyOne).1 else AllFailed(g.members);
      JoinMatch(outs, Flat(front), more, g.members);
    }
  }

  function Committed(groups: seq<Group>, commits: nat -> bool): seq<Group> {
    if groups == [] then []
    else Committed(groups[..|groups| - 1], commits) + if commits(|groups| - 1) then [groups[|groups| - 1]] else []
  }

  lemma {:induction false} ApplyJoined<W, A>(w: W, a: seq<Mutation>, b: seq<Mutation>,
                                             applyOne: (W, Mutation) -> (W, A))
    ensures ApplyAll(w, a + b, applyOne).0 == ApplyAll(ApplyAll(w, a, applyOne).0, b, applyOne).0
  {
    if b == [] {
      assert a + b == a;
    } else {
      ApplyJoined(w, a, b[..|b| - 1], applyOne);
      assert (a + b)[..|a + b| - 1] == a + b[..|b| - 1];
    }
  }

  /** A failed group leaves no trace: the result is as if only the groups that committed had been sent. */
  lemma {:induction false} FailedGroupsLeaveNoTrace<W, A>(w: W, groups: seq<Group>, applyOne: (W, Mutation) -> (W, A),
                                                          commits: nat -> bool)
    ensures Execute(w, groups, applyOne, commits).0 == ApplyAll(w, Flat(Committed(groups, commits)), applyOne).0
  {
    if groups != [] {
      var front, g := groups[..|groups| - 1], groups[|groups| - 1];
      FailedGroupsLeaveNoTrace(w, front, applyOne, commits);
      if commits(|groups| - 1) {
        var kept := Committed(front, commits);
        assert (kept + [g])[..|kept|] == kept;
        ApplyJoined(w, Flat(kept), g.members, applyOne);
      } else {
        assert Committed(front, commits) + [] == Committed(front, commits);
      }
    }
  }

  /**
   * A mutation of an entity the order does not list is never run and gets no outcome at all, so the
   * reply answers every mutation exactly when every entity is known.
   */
  lemma EveryoneIsAnsweredIffKnown<W, A>(w: W, ms: seq<Mutation>, applyOne: (W, Mutation) -> (W, A),
                                         commits: nat -> bool)
    ensures var outs := Execute(w, Plan(GROUP_ORDER, ms), applyOne, commits).1;
            && (|outs| == |ms| <==> forall m :: m in ms ==> !m.entity.Unknown?)
            && forall o :: o in outs ==> !o.of.entity.Unknown?
  {
    GroupOrderIsDistinct();
    OutcomesMatch(w, Plan(GROUP_ORDER, ms), applyOne, commits);
    PlanIsPermutation(GROUP_ORDER, ms);
    PlanIsStableSort(GROUP_ORDER, ms);
    KnownKeeps(GROUP_ORDER, ms);
    var s := Flat(Plan(GROUP_ORDER, ms));
    assert |multiset(s)| == |s| && |multiset(Known(GROUP_ORDER, ms))| == |Known(GROUP_ORDER, ms)|;
  }
}
