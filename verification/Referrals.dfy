/** Refer and earn: who is owed what, from the code typed in to the money sent. */
module Referrals {
  import opened Common

  datatype Status = Pending | Qualified | Claimed | Paid | Rejected

  datatype Row = Row(id: int, referrer: int, referee: int, status: Status, bonus: nat, upi: string)

  /** `purchased` are the accounts that ever held a Play purchase; `offer` is the configured bonus. */
  datatype State = State(rows: seq<Row>, purchased: set<int>, offer: int)

  /** One UPDATE of the table: every row it selects, each by its own WHERE. */
  datatype Act = Qualify(id: int, pinned: nat) | Claim(user: int, upi: string) | Pay(id: int) | Refuse(id: int)

  predicate Selects(act: Act, r: Row) {
    match act
    case Qualify(id, _) => r.id == id && r.status.Pending?
    case Claim(user, _) => r.referrer == user && r.status.Qualified?
    case Pay(id) => r.id == id && r.status.Claimed?
    case Refuse(id) => r.id == id && (r.status.Pending? || r.status.Qualified? || r.status.Claimed?)
  }

  function ActOn(r: Row, act: Act): Row {
    if !Selects(act, r) then r
    else
      match act
      case Qualify(_, pinned) => r.(status := Qualified, bonus := pinned)
      case Claim(_, upi) => r.(status := Claimed, upi := upi)
      case Pay(_) => r.(status := Paid)
      case Refuse(_) => r.(status := Rejected)
  }

  function Acted(rows: seq<Row>, act: Act): seq<Row> { seq(|rows|, i requires 0 <= i < |rows| => ActOn(rows[i], act)) }

  /** What the configuration offers at this moment; a bonus is never negative. */
  function Offer(s: State): nat { if s.offer > 0 then s.offer else 0 }

  predicate Referred(rows: seq<Row>, user: int) { exists i :: 0 <= i < |rows| && rows[i].referee == user }

  predicate MayApply(s: State, user: int, owner: Option<int>) {
    s.offer > 0 && owner.Some? && owner.value != user && user !in s.purchased && !Referred(s.rows, user)
  }

  /** A fresh id is drawn for the row; rows are never deleted, so their number is one. */
  function Applied(s: State, user: int, owner: Option<int>): State {
    if MayApply(s, user, owner) then s.(rows := s.rows + [Row(|s.rows|, owner.value, user, Pending, 0, "")]) else s
  }

  /** The referee's pending row, if there is one. */
  function PendingOf(rows: seq<Row>, user: int): Option<int> {
    if rows == [] then None
    else if rows[0].referee == user && rows[0].status.Pending? then Some(rows[0].id)
    else PendingOf(rows[1..], user)
  }

  /** A purchase that has really been paid, on a plan that earns a bonus, qualifies the referee's row. */
  function Bought(s: State, user: int, earns: bool): State {
    var s1 := s.(purchased := s.purchased + {user});
    var row := PendingOf(s.rows, user);
    if row.Some? && earns then s1.(rows := Acted(s.rows, Qualify(row.value, Offer(s)))) else s1
  }

  datatype Op =
    | SetOffer(offer: int)
    | ApplyCode(user: int, owner: Option<int>)
    | Purchase(user: int, earns: bool)
    | Recheck(id: int, earns: bool)
    | ClaimBonus(user: int, upi: Option<string>)
    | MarkPaid(id: int)
    | Reject(id: int)

  function Step(s: State, op: Op): State {
    match op
    case SetOffer(offer) => s.(offer := offer)
    case ApplyCode(user, owner) => Applied(s, user, owner)
    case Purchase(user, earns) => Bought(s, user, earns)
    case Recheck(id, earns) => if earns then s.(rows := Acted(s.rows, Qualify(id, Offer(s)))) else s
    case ClaimBonus(user, upi) => if upi.Some? then s.(rows := Acted(s.rows, Claim(user, upi.value))) else s
    case MarkPaid(id) => s.(rows := Acted(s.rows, Pay(id)))
    case Reject(id) => s.(rows := Acted(s.rows, Refuse(id)))
  }

  function Run(ops: seq<Op>): State {
    if ops == [] then State([], {}, 0) else Step(Run(ops[..|ops| - 1]), ops[|ops| - 1])
  }

  // ------------------------------------------------------------------ sums

  function SumOf(rows: seq<Row>, user: int, status: Status): nat {
    if rows == [] then 0
    else
      var r := rows[|rows| - 1];
      SumOf(rows[..|rows| - 1], user, status) + if r.referrer == user && r.status == status then r.bonus else 0
  }

  /** All that was ever pinned for a referrer and is still on record, whatever became of it. */
  function Pinned(rows: seq<Row>, user: int): nat {
    if rows == [] then 0
    else
      var r := rows[|rows| - 1];
      Pinned(rows[..|rows| - 1], user) + if r.referrer == user then r.bonus else 0
  }

  datatype Summary = Summary(claimable: nat, pendingPayout: nat, paid: nat)

  /** Claiming moves everything claimable onto its way, and nothing else. */
  lemma {:induction false} ClaimMovesAll(rows: seq<Row>, user: int, upi: string)
    ensures var after := Acted(rows, Claim(user, upi));
            && SumOf(after, user, Qualified) == 0
            && SumOf(after, user, Claimed) == SumOf(rows, user, Claimed) + SumOf(rows, user, Qualified)
            && SumOf(after, user, Paid) == SumOf(rows, user, Paid)
            && SumOf(after, user, Rejected) == SumOf(rows, user, Rejected)
  {
    if rows != [] {
      var front := rows[..|rows| - 1];
      assert Acted(rows, Claim(user, upi))[..|rows| - 1] == Acted(front, Claim(user, upi));
      ClaimMovesAll(front, user, upi);
    }
  }

  class Desk {
    var rows: seq<Row>
    var purchased: set<int>
    var offer: int

    ghost function View(): State
      reads this
    {
      State(rows, purchased, offer)
    }

    constructor (offer: int)
      ensures View() == State([], {}, offer)
    {
      rows, purchased, this.offer := [], {}, offer;
    }

    method Update(act: Act) returns (affected: nat)
      modifies this`rows
      ensures rows == Acted(old(rows), act)
      ensures affected > 0 <==> exists i :: 0 <= i < |old(rows)| && Selects(act, old(rows)[i])
    {
      ghost var was := rows;
      var out: seq<Row> := [];
      affected := 0;
      for k := 0 to |rows|
        invariant rows == was && |out| == k && forall i :: 0 <= i < k ==> out[i] == ActOn(was[i], act)
        invariant affected > 0 <==> exists i :: 0 <= i < k && Selects(act, was[i])
      {
        if Selects(act, rows[k]) { affected := affected + 1; }
        out := out + [ActOn(rows[k], act)];
      }
      rows := out;
    }

    /** Refused, or recorded; the unique index on the referee has the last word. */
    method ApplyCode(user: int, owner: Option<int>) returns (ok: bool)
      modifies this`rows
      ensures View() == Applied(old(View()), user, owner) && ok == MayApply(old(View()), user, owner)
    {
      if offer <= 0 || owner.None? || owner.value == user || user in purchased { return false; }
      if exists i :: 0 <= i < |rows| && rows[i].referee == user { return false; }
      rows := rows + [Row(|rows|, owner.value, user, Pending, 0, "")];
      ok := true;
    }

    method NotePurchase(user: int, earns: bool)
      modifies this
      ensures View() == Bought(old(View()), user, earns)
    {
      purchased := purchased + {user};
      var row := PendingOf(rows, user);
      if row.None? { return; }
      if earns {
        var n := Update(Qualify(row.value, if offer > 0 then offer else 0));
      }
    }

    method Claim(user: int, upi: Option<string>) returns (ok: bool)
      modifies this`rows
      ensures View() == Step(old(View()), ClaimBonus(user, upi))
      ensures ok ==> upi.Some? && SumOf(rows, user, Qualified) == 0
    {
      if upi.None? { return false; }
      var n := Update(Act.Claim(user, upi.value));
      ClaimMovesAll(old(rows), user, upi.value);
      ok := n > 0;
    }

    /** The three figures of the referrer's screen. */
    method Summarize(user: int) returns (s: Summary)
      ensures s == Summary(SumOf(rows, user, Qualified), SumOf(rows, user, Claimed), SumOf(rows, user, Paid))
    {
      s := Summary(0, 0, 0);
      for k := 0 to |rows|
        invariant s == Summary(SumOf(rows[..k], user, Qualified), SumOf(rows[..k], user, Claimed),
                               SumOf(rows[..k], user, Paid))
      {
        assert rows[..k + 1][..k] == rows[..k];
        var r := rows[k];
        if r.referrer == user {
          match r.status
          case Qualified => s := s.(claimable := s.claimable + r.bonus);
          case Claimed => s := s.(pendingPayout := s.pendingPayout + r.bonus);
          case Paid => s := s.(paid := s.paid + r.bonus);
          case _ =>
        }
      }
      assert rows[..|rows|] == rows;
    }
  }

  // ------------------------------------------------------------------ what always holds

  /** Ids are a key, one row per referee, nobody refers himself, and a pending row has no bonus yet. */
  ghost predicate Inv(rows: seq<Row>) {
    && (forall i :: 0 <= i < |rows| ==> rows[i].id == i)
    && (forall i, j :: 0 <= i < j < |rows| ==> rows[i].referee != rows[j].referee)
    && (forall i :: 0 <= i < |rows| ==> rows[i].referrer != rows[i].referee)
    && forall i :: 0 <= i < |rows| && rows[i].status.Pending? ==> rows[i].bonus == 0
  }

  lemma ActedKeeps(rows: seq<Row>, act: Act)
    requires Inv(rows)
    ensures Inv(Acted(rows, act))
  {
  }

  lemma {:induction false} RunKeeps(ops: seq<Op>)
    ensures Inv(Run(ops).rows)
  {
    if ops != [] {
      var s := Run(ops[..|ops| - 1]);
      RunKeeps(ops[..|ops| - 1]);
      match ops[|ops| - 1]
      case Purchase(user, _) =>
        if PendingOf(s.rows, user).Some? { ActedKeeps(s.rows, Qualify(PendingOf(s.rows, user).value, Offer(s))); }
      case Recheck(id, _) => ActedKeeps(s.rows, Qualify(id, Offer(s)));
      case ClaimBonus(user, upi) => if upi.Some? { ActedKeeps(s.rows, Claim(user, upi.value)); }
      case MarkPaid(id) => ActedKeeps(s.rows, Pay(id));
      case Reject(id) => ActedKeeps(s.rows, Refuse(id));
      case _ =>
    }
  }

  function Rank(s: Status): nat {
    match s case Pending => 0 case Qualified => 1 case Claimed => 2 case Paid => 3 case Rejected => 3
  }

  /**
   * A row never leaves its referrer or referee; its status only moves forward, and from paid or
   * rejected not at all; its bonus is written once, on the way from pending to qualified, whatever
   * the offer does later.
   */
  lemma RowsOnlyMoveForward(s: State, op: Op, i: nat)
    requires i < |s.rows|
    ensures var (r, rows') := (s.rows[i], Step(s, op).rows);
            && i < |rows'| && rows'[i].id == r.id && rows'[i].referrer == r.referrer && rows'[i].referee == r.referee
            && Rank(r.status) <= Rank(rows'[i].status)
            && (r.status.Paid? || r.status.Rejected? ==> rows'[i] == r)
            && (rows'[i].bonus != r.bonus ==>
                  r.status.Pending? && rows'[i].status.Qualified? && rows'[i].bonus == Offer(s))
  {
  }

  /** The row found is a pending one of that referee, and one is found exactly when there is one. */
  lemma {:induction false} PendingIsOwn(rows: seq<Row>, user: int)
    ensures PendingOf(rows, user).Some? <==>
              exists i :: 0 <= i < |rows| && rows[i].referee == user && rows[i].status.Pending?
    ensures PendingOf(rows, user).Some? ==>
              exists i :: 0 <= i < |rows| && rows[i].referee == user && rows[i].status.Pending?
                          && rows[i].id == PendingOf(rows, user).value
  {
    if rows != [] {
      var rest := rows[1..];
      PendingIsOwn(rest, user);
      assert forall i :: 0 <= i < |rest| ==> rows[i + 1] == rest[i];
      if i :| 1 <= i < |rows| && rows[i].referee == user && rows[i].status.Pending? { assert rest[i - 1] == rows[i]; }
    }
  }

  /** The operation is a purchase by the row's referee, or a recheck of the row, that earns a bonus. */
  predicate Earns(op: Op, r: Row) {
    match op
    case Purchase(user, earns) => earns && user == r.referee
    case Recheck(id, earns) => earns && id == r.id
    case _ => false
  }

  /**
   * What becomes of a row, in full: pending, it qualifies at the offer of the day when its own referee
   * buys; qualified, it is claimed by its referrer, to the account he names; claimed, it is paid; not
   * yet paid, it is rejected; and nothing else touches it.
   */
  lemma WhatBecomesOfARow(s: State, op: Op, i: nat)
    requires Inv(s.rows) && i < |s.rows|
    ensures var r := s.rows[i];
            i < |Step(s, op).rows| && Step(s, op).rows[i] ==
              if r.status.Pending? && Earns(op, r) then r.(status := Qualified, bonus := Max(s.offer, 0))
              else if r.status.Qualified? && op.ClaimBonus? && op.user == r.referrer && op.upi.Some?
              then r.(status := Claimed, upi := op.upi.value)
              else if r.status.Claimed? && op == MarkPaid(r.id) then r.(status := Paid)
              else if !r.status.Paid? && op == Reject(r.id) then r.(status := Rejected)
              else r
  {
    if op.Purchase? {
      PendingIsOwn(s.rows, op.user);
      if PendingOf(s.rows, op.user).Some? {
        var k :| 0 <= k < |s.rows| && s.rows[k].referee == op.user && s.rows[k].status.Pending?
                 && s.rows[k].id == PendingOf(s.rows, op.user).value;
        assert k != i ==> s.rows[k].referee != s.rows[i].referee;
      }
    }
  }

  /**
   * A row is added exactly by a code of another account, typed while referrals run by an account that
   * has neither purchased nor been referred; it is pending, without a bonus.
   */
  lemma CodeIsRecordedIff(s: State, op: Op)
    ensures var s' := Step(s, op);
            && (|s'.rows| == |s.rows| || |s'.rows| == |s.rows| + 1)
            && (|s'.rows| > |s.rows| <==>
                  op.ApplyCode? && s.offer > 0 && op.owner.Some? && op.owner.value != op.user
                  && op.user !in s.purchased && forall i :: 0 <= i < |s.rows| ==> s.rows[i].referee != op.user)
            && (|s'.rows| > |s.rows| ==>
                  s'.rows == s.rows + [Row(|s.rows|, op.owner.value, op.user, Pending, 0, "")])
            && s'.purchased == (if op.Purchase? then s.purchased + {op.user} else s.purchased)
            && s'.offer == (if op.SetOffer? then op.offer else s.offer)
  {
  }

  /** Only a claim is about many rows; every other operation changes at most one of those there were. */
  lemma OneRowAtATime(s: State, op: Op, i: nat, j: nat)
    requires Inv(s.rows) && !op.ClaimBonus? && i < |s.rows| && j < |s.rows|
    requires Step(s, op).rows[i] != s.rows[i] && Step(s, op).rows[j] != s.rows[j]
    ensures i == j
  {
  }

  // ------------------------------------------------------------------ the money adds up

  /** What is pinned for a referrer is claimable, on its way, paid or refused: nothing else, nothing twice. */
  lemma {:induction false} PinnedSplits(rows: seq<Row>, user: int)
    requires forall i :: 0 <= i < |rows| && rows[i].status.Pending? ==> rows[i].bonus == 0
    ensures Pinned(rows, user)
         == SumOf(rows, user, Qualified) + SumOf(rows, user, Claimed) + SumOf(rows, user, Paid)
            + SumOf(rows, user, Rejected)
  {
    if rows != [] {
      var front := rows[..|rows| - 1];
      assert forall i :: 0 <= i < |front| ==> front[i] == rows[i];
      PinnedSplits(front, user);
    }
  }

  /** What an act newly pins for a referrer. */
  function NewlyPinned(rows: seq<Row>, act: Act, user: int): nat {
    if rows == [] then 0
    else
      var r := rows[|rows| - 1];
      NewlyPinned(rows[..|rows| - 1], act, user)
      + if act.Qualify? && Selects(act, r) && r.referrer == user then act.pinned else 0
  }

  lemma {:induction false} ActedPins(rows: seq<Row>, act: Act, user: int)
    requires forall i :: 0 <= i < |rows| && rows[i].status.Pending? ==> rows[i].bonus == 0
    ensures Pinned(Acted(rows, act), user) == Pinned(rows, user) + NewlyPinned(rows, act, user)
  {
    if rows != [] {
      var front := rows[..|rows| - 1];
      assert Acted(rows, act)[..|rows| - 1] == Acted(front, act);
      assert forall i :: 0 <= i < |front| ==> front[i] == rows[i];
      ActedPins(front, act, user);
    }
  }

  /** What an operation promises a referrer: today's offer, for a row it takes from pending to qualified. */
  function Promised(s: State, op: Op, user: int): nat {
    match op
    case Purchase(referee, earns) =>
      var row := PendingOf(s.rows, referee);
      if row.Some? && earns then NewlyPinned(s.rows, Qualify(row.value, Offer(s)), user) else 0
    case Recheck(id, earns) => if earns then NewlyPinned(s.rows, Qualify(id, Offer(s)), user) else 0
    case _ => 0
  }

  function AllPromised(ops: seq<Op>, user: int): nat {
    if ops == [] then 0
    else AllPromised(ops[..|ops| - 1], user) + Promised(Run(ops[..|ops| - 1]), ops[|ops| - 1], user)
  }

  lemma {:induction false} NothingPinned(rows: seq<Row>, act: Act, user: int)
    requires !act.Qualify?
    ensures NewlyPinned(rows, act, user) == 0
  {
    if rows != [] { NothingPinned(rows[..|rows| - 1], act, user); }
  }

  lemma StepPins(s: State, op: Op, user: int)
    requires Inv(s.rows)
    ensures Pinned(Step(s, op).rows, user) == Pinned(s.rows, user) + Promised(s, op, user)
  {
    match op
    case ApplyCode(referee, owner) =>
      if MayApply(s, referee, owner) { assert Step(s, op).rows[..|s.rows|] == s.rows; }
    case Purchase(referee, _) =>
      var row := PendingOf(s.rows, referee);
      if row.Some? { ActedPins(s.rows, Qualify(row.value, Offer(s)), user); }
    case Recheck(id, _) => ActedPins(s.rows, Qualify(id, Offer(s)), user);
    case ClaimBonus(u, upi) =>
      if upi.Some? {
        ActedPins(s.rows, Claim(u, upi.value), user);
        NothingPinned(s.rows, Claim(u, upi.value), user);
      }
    case MarkPaid(id) => ActedPins(s.rows, Pay(id), user); NothingPinned(s.rows, Pay(id), user);
    case Reject(id) => ActedPins(s.rows, Refuse(id), user); NothingPinned(s.rows, Refuse(id), user);
    case _ =>
  }

  lemma {:induction false} RunPins(ops: seq<Op>, user: int)
    ensures Pinned(Run(ops).rows, user) == AllPromised(ops, user)
  {
    if ops != [] {
      var front := ops[..|ops| - 1];
      RunKeeps(front);
      RunPins(front, user);
      StepPins(Run(front), ops[|ops| - 1], user);
    }
  }

  /**
   * Over any run, with the offer changing as it likes: what a referrer was promised, row by row at the
   * offer of the day, is exactly what the screen shows as claimable, on its way and paid, and what was refused.
   */
  lemma MoneyIsConserved(ops: seq<Op>, user: int)
    ensures var rows := Run(ops).rows;
            AllPromised(ops, user)
            == SumOf(rows, user, Qualified) + SumOf(rows, user, Claimed) + SumOf(rows, user, Paid)
               + SumOf(rows, user, Rejected)
  {
    RunKeeps(ops);
    RunPins(ops, user);
    PinnedSplits(Run(ops).rows, user);
  }

  /** An account is referred at most once, so it can be promised for at most once: no two rows, ever, name it. */
  lemma OnePromisePerReferee(ops: seq<Op>, i: nat, j: nat)
    requires i < |Run(ops).rows| && j < |Run(ops).rows| && Run(ops).rows[i].referee == Run(ops).rows[j].referee
    ensures i == j
  {
    RunKeeps(ops);
  }
}
