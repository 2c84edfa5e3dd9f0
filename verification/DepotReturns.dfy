/** Godown adjustments, and how a return survives being edited by an app that has never heard of returns. */
module DepotReturns {
  import opened Common
  import opened DepotRecords

  const MAX_BAGS := 10_000_000.0
  const NOTHING := 0.000000001

  datatype Kind = Opening | Damage | Correction | Returned

  /** `{gradeId: bags}` in the object's own order. */
  type Bags = seq<(int, real)>

  /** A key that is not a grade id, or a count that is not a finite number, is None. */
  type SentBags = seq<(Option<int>, Option<real>)>

  /** The property as it was sent: missing or null, an object, or anything else. */
  datatype WireBags = NoBags | Object(entries: SentBags) | NotAnObject

  /** Customer, address, vehicle, gang and rate of a return. */
  datatype Details = Details(customer: string, address: string, vehicleNo: string, labour: Option<int>,
                             labourRate: real)

  const NO_DETAILS := Details("", "", "", None, 0.0)

  /** An id whose key was not sent at all, as an app from before returns does not; or that is empty, wrong, or there. */
  datatype SentId = Absent | Blank | Malformed | Is(n: int)

  /** `details` is None when the gang or the rate among them is refused. */
  datatype Wire = Wire(kind: Option<Kind>, bags: WireBags, companyOk: bool, dateOk: bool, party: SentId,
                       details: Option<Details>, note: string)

  /** The columns an INSERT or UPDATE sets; `party` only when sent. */
  datatype Cols = Cols(kind: Kind, bags: Bags, note: string, party: Option<(Option<int>, Details)>)

  datatype Adjustment = Adjustment(kind: Kind, bags: Bags, note: string, party: Option<int>, details: Details)

  function Abs(x: real): real { if x < 0.0 then -x else x }

  function Total(bags: Bags): real { if bags == [] then 0.0 else Total(bags[..|bags| - 1]) + bags[|bags| - 1].1 }

  predicate Acceptable(line: (Option<int>, Option<real>), signed: bool) {
    line.0.Some? && line.1.Some? && (signed || line.1.value >= 0.0) && Abs(line.1.value) <= MAX_BAGS
  }

  predicate AllAcceptable(sent: SentBags, signed: bool) { forall i :: 0 <= i < |sent| ==> Acceptable(sent[i], signed) }

  /** Zero lines are dropped rather than stored. */
  function Kept(sent: SentBags): Bags {
    if sent == [] then []
    else
      var front, last := Kept(sent[..|sent| - 1]), sent[|sent| - 1];
      if last.0.Some? && last.1.Some? && Abs(last.1.value) > NOTHING then front + [(last.0.value, last.1.value)]
      else front
  }

  function Lines(sent: WireBags): SentBags { if sent.Object? then sent.entries else [] }

  predicate Readable(sent: WireBags, signed: bool) { !sent.NotAnObject? && AllAcceptable(Lines(sent), signed) }

  method ReadGradeBags(sent: WireBags, signed: bool) returns (out: Option<Bags>)
    ensures out == if Readable(sent, signed) then Some(Kept(Lines(sent))) else None
  {
    if sent.NoBags? { return Some([]); }
    if sent.NotAnObject? { return None; }
    var kept: Bags, lines := [], sent.entries;
    for k := 0 to |lines|
      invariant AllAcceptable(lines[..k], signed)
      invariant kept == Kept(lines[..k])
    {
      assert lines[..k + 1][..k] == lines[..k];
      var (grade, raw) := lines[k];
      if grade.None? || raw.None? { return None; }
      if !signed && raw.value < 0.0 { return None; }
      if Abs(raw.value) > MAX_BAGS { return None; }
      if Abs(raw.value) > NOTHING { kept := kept + [(grade.value, raw.value)]; }
    }
    assert lines[..|lines|] == lines;
    out := Some(kept);
  }

  predicate SomePositive(bags: Bags) { exists i :: 0 <= i < |bags| && bags[i].1 > 0.0 }

  predicate SomeNegative(bags: Bags) { exists i :: 0 <= i < |bags| && bags[i].1 < 0.0 }

  function Columns(d: Wire): Option<Cols> {
    if d.kind.None? then None
    else
      var kind, bags := d.kind.value, Kept(Lines(d.bags));
      if !Readable(d.bags, kind.Correction? || kind.Damage?) then None
      else if kind.Damage? && SomePositive(bags) then None
      else if kind.Returned? && Total(bags) <= 0.0 then None
      else if !d.companyOk || d.party.Malformed? || (kind.Returned? && !d.party.Is?) || !d.dateOk then None
      else if kind.Returned? && d.details.None? then None
      else
        Some(Cols(kind, bags, d.note,
                  if d.party.Absent? then None
                  else Some(if kind.Returned? then (Some(d.party.n), d.details.value) else (None, NO_DETAILS))))
  }

  function Carry(cols: Cols, existing: Adjustment, d: Wire): Option<Cols> {
    if existing.kind.Returned? && d.party.Absent? then
      if Total(cols.bags) <= 0.0 || SomeNegative(cols.bags) then None else Some(cols.(kind := Returned))
    else Some(cols)
  }

  function Insert(c: Cols): Adjustment {
    Adjustment(c.kind, c.bags, c.note,
               if c.party.Some? then c.party.value.0 else None, if c.party.Some? then c.party.value.1 else NO_DETAILS)
  }

  function Update(r: Adjustment, c: Cols): Adjustment {
    Adjustment(c.kind, c.bags, c.note,
               if c.party.Some? then c.party.value.0 else r.party, if c.party.Some? then c.party.value.1 else r.details)
  }

  function Adjustments(): RecordDef<Wire, Cols, Adjustment> {
    RecordDef(Columns, Insert, Update, Carry, false)
  }

  // ------------------------------------------------------------------ what is accepted and what is stored

  /** Line by line, in the order they came, the bags are the counts that are not as good as zero. */
  lemma {:induction false} KeptJoins(a: SentBags, b: SentBags)
    ensures Kept(a + b) == Kept(a) + Kept(b)
    ensures |b| == 1 ==>
              Kept(b) == if b[0].0.Some? && b[0].1.Some? && (b[0].1.value > NOTHING || b[0].1.value < -NOTHING)
                         then [(b[0].0.value, b[0].1.value)] else []
  {
    if b == [] {
      assert a + b == a;
    } else {
      KeptJoins(a, b[..|b| - 1]);
      assert (a + b)[..|a + b| - 1] == a + b[..|b| - 1];
      assert Kept(b[..0]) == [];
    }
  }

  lemma {:induction false} TotalJoins(a: Bags, b: Bags)
    ensures Total(a + b) == Total(a) + Total(b) && (|b| == 1 ==> Total(b) == b[0].1)
  {
    if b == [] {
      assert a + b == a;
    } else {
      TotalJoins(a, b[..|b| - 1]);
      assert (a + b)[..|a + b| - 1] == a + b[..|b| - 1];
      assert Total(b[..0]) == 0.0;
    }
  }

  /** Every key is a grade and every count a number in range, not negative unless it may be. */
  predicate BagsInOrder(sent: WireBags, signed: bool) {
    && !sent.NotAnObject?
    && (sent.Object? ==> forall i :: 0 <= i < |sent.entries| ==>
          && sent.entries[i].0.Some? && sent.entries[i].1.Some?
          && (if signed then -MAX_BAGS else 0.0) <= sent.entries[i].1.value <= MAX_BAGS)
  }

  lemma ReadableIff(sent: WireBags, signed: bool)
    ensures Readable(sent, signed) <==> BagsInOrder(sent, signed)
  {
    if BagsInOrder(sent, signed) && sent.Object? {
      forall i | 0 <= i < |sent.entries| ensures Acceptable(sent.entries[i], signed) {
        assert sent.entries[i].1.Some?;
      }
    } else if Readable(sent, signed) && sent.Object? {
      forall i | 0 <= i < |sent.entries|
        ensures sent.entries[i].0.Some? && sent.entries[i].1.Some?
                && (if signed then -MAX_BAGS else 0.0) <= sent.entries[i].1.value <= MAX_BAGS
      {
        assert Acceptable(sent.entries[i], signed);
      }
    }
  }

  function BagsOf(sent: WireBags): Bags { if sent.Object? then Kept(sent.entries) else [] }

  /**
   * An adjustment is accepted exactly if its bags are in order for its kind, a burst bag only takes away,
   * a return brings some back from a dealer, with details that can be read, and the rest is well formed.
   */
  lemma AdjustmentIsAcceptedIff(d: Wire)
    ensures Columns(d).Some? <==>
              && d.kind.Some? && d.companyOk && d.dateOk && !d.party.Malformed?
              && BagsInOrder(d.bags, d.kind.value.Damage? || d.kind.value.Correction?)
              && (d.kind.value.Damage? ==> forall i :: 0 <= i < |BagsOf(d.bags)| ==> BagsOf(d.bags)[i].1 <= 0.0)
              && (d.kind.value.Returned? ==> Total(BagsOf(d.bags)) > 0.0 && d.party.Is? && d.details.Some?)
    ensures Columns(d).Some? && !d.party.Absent? ==>
              Insert(Columns(d).value)
              == Adjustment(d.kind.value, BagsOf(d.bags), d.note,
                            if d.kind.value.Returned? then Some(d.party.n) else None,
                            if d.kind.value.Returned? then d.details.value else NO_DETAILS)
    ensures Columns(d).Some? && d.party.Absent? ==>
              Insert(Columns(d).value) == Adjustment(d.kind.value, BagsOf(d.bags), d.note, None, NO_DETAILS)
  {
    ReadableIff(d.bags, true);
    ReadableIff(d.bags, false);
    assert BagsOf(d.bags) == Kept(Lines(d.bags)) by { assert Kept([]) == []; }
  }

  /**
   * An edit stores what it sends, but a return edited without the return's keys stays one, with its dealer
   * and details, and is refused if its bags would not be a return's; a tombstone is not revived.
   */
  lemma EditIsStoredAs(rows: map<int, Row<Adjustment>>, m: Mutation<Wire>)
    requires m.idOk && m.id in rows && m.rev == Some(rows[m.id].rev as int) && Columns(m.data).Some?
    ensures var ((rows', out), r, d) := (Upserted(Adjustments(), rows, m), rows[m.id], m.data);
            var carried := r.body.kind.Returned? && d.party.Absent?;
            && (out.Applied? <==>
                  && r.live && (carried ==> Total(BagsOf(d.bags)) > 0.0)
                  && (carried ==> forall i :: 0 <= i < |BagsOf(d.bags)| ==> BagsOf(d.bags)[i].1 >= 0.0))
            && (!out.Applied? ==> rows' == rows)
            && (out.Applied? ==>
                  rows'[m.id].body
                  == Adjustment(if carried then Returned else d.kind.value, BagsOf(d.bags), d.note,
                                if d.party.Absent? then r.body.party
                                else if d.kind.value.Returned? then Some(d.party.n) else None,
                                if d.party.Absent? then r.body.details
                                else if d.kind.value.Returned? then d.details.value else NO_DETAILS))
  {
    AdjustmentIsAcceptedIff(m.data);
  }

  // ------------------------------------------------------------------ every return can be read as one

  /** A return names its dealer, brings back some bags and takes none away; a burst bag only takes away. */
  ghost predicate Sensible(a: Adjustment) {
    && (a.kind.Returned? ==> a.party.Some? && Total(a.bags) > 0.0 && !SomeNegative(a.bags))
    && (a.kind.Damage? ==> !SomePositive(a.bags))
    && (a.kind.Opening? ==> !SomeNegative(a.bags))
    && (!a.kind.Returned? ==> a.party.None? && a.details == NO_DETAILS)
  }

  ghost predicate AllSensible(rows: map<int, Row<Adjustment>>) { forall id :: id in rows ==> Sensible(rows[id].body) }

  lemma {:induction false} KeptComesFromSent(sent: SentBags)
    ensures forall i :: 0 <= i < |Kept(sent)| ==> (Some(Kept(sent)[i].0), Some(Kept(sent)[i].1)) in sent
  {
    if sent != [] {
      KeptComesFromSent(sent[..|sent| - 1]);
      assert sent == sent[..|sent| - 1] + [sent[|sent| - 1]];
    }
  }

  lemma UnsignedStaysUnsigned(sent: SentBags)
    requires AllAcceptable(sent, false)
    ensures !SomeNegative(Kept(sent))
  {
    KeptComesFromSent(sent);
  }

  lemma StoredIsSensible(d: Wire, existing: Adjustment)
    requires Columns(d).Some?
    ensures Sensible(Insert(Columns(d).value))
    ensures Sensible(existing) && Carry(Columns(d).value, existing, d).Some? ==>
              Sensible(Update(existing, Carry(Columns(d).value, existing, d).value))
  {
    var kind := d.kind.value;
    if !kind.Correction? && !kind.Damage? { UnsignedStaysUnsigned(Lines(d.bags)); }
  }

  lemma StepStaysSensible(rows: map<int, Row<Adjustment>>, op: Op<Wire, Adjustment>)
    requires AllSensible(rows)
    ensures AllSensible(Step(Adjustments(), rows, op))
  {
    match op
    case Upsert(m) =>
      if Columns(m.data).Some? {
        StoredIsSensible(m.data, if m.id in rows then rows[m.id].body else Insert(Columns(m.data).value));
      }
    case Delete(_, _) =>
    case Cascade(_) =>
  }

  /** Whatever apps, old and new, push in whatever order. */
  lemma {:induction false} RunStaysSensible(ops: seq<Op<Wire, Adjustment>>)
    ensures AllSensible(Run(Adjustments(), map[], ops))
  {
    if ops != [] {
      var front, op := ops[..|ops| - 1], ops[|ops| - 1];
      RunStaysSensible(front);
      StepStaysSensible(Run(Adjustments(), map[], front), op);
    }
  }

  /**
   * An app that sends none of the return's keys cannot unmake a return: kind, dealer and details stay,
   * only bags and note change.
   */
  lemma OldAppKeepsReturn(rows: map<int, Row<Adjustment>>, m: Mutation<Wire>)
    requires m.id in rows && m.data.party.Absent?
    ensures var rows' := Upserted(Adjustments(), rows, m).0;
            && rows'[m.id].body.party == rows[m.id].body.party && rows'[m.id].body.details == rows[m.id].body.details
            && (rows[m.id].body.kind.Returned? ==> rows'[m.id].body.kind.Returned?)
            && (rows' != rows ==>
                  rows'[m.id].body.bags == Kept(Lines(m.data.bags)) && rows'[m.id].body.note == m.data.note)
  {
  }
}
