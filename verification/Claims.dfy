/**
 * Claims and their credit notes: the status follows the money, whoever edits what, and the figures a
 * claim was raised on never change.
 */
module Claims {
  import opened Common

  datatype Status = Claimable | Claimed | Received

  /** What a claim is raised on. */
  datatype Frozen = Frozen(scheme: int, company: int, periodFrom: int, periodTo: int, title: string, bags: real,
                           accrued: real)

  datatype Claim = Claim(live: bool, rev: nat, frozen: Frozen, status: Status, sentOn: Option<int>, schemeName: string)

  datatype Note = Note(id: int, claim: int, amount: real)

  /** The notes in the table's own order; `id` is the primary key. */
  datatype Book = Book(claims: map<int, Claim>, notes: seq<Note>)

  const TOLERANCE := 0.000000001

  // ------------------------------------------------------------------ the rule

  function Sum(notes: seq<Note>, claim: int): real {
    if notes == [] then 0.0
    else Sum(notes[..|notes| - 1], claim) + if notes[|notes| - 1].claim == claim then notes[|notes| - 1].amount else 0.0
  }

  predicate HasNotes(notes: seq<Note>, claim: int) { exists i :: 0 <= i < |notes| && notes[i].claim == claim }

  /** There is a credit note, and the notes add up to what was accrued. */
  predicate Settled(notes: seq<Note>, id: int, accrued: real) {
    HasNotes(notes, id) && Sum(notes, id) >= accrued - TOLERANCE
  }

  function AutoStatus(status: Status, accrued: real, received: real, hasNotes: bool, sentOn: Option<int>): Status {
    if received >= accrued - TOLERANCE && hasNotes then Received
    else if status.Received? then (if sentOn.Some? then Claimed else Claimable)
    else status
  }

  function Restated(b: Book, id: int, c: Claim): Claim {
    c.(status := AutoStatus(c.status, c.frozen.accrued, Sum(b.notes, id), HasNotes(b.notes, id), c.sentOn))
  }

  // ------------------------------------------------------------------ the note table

  /** The row with that id, if there is one. */
  function RowOf(notes: seq<Note>, id: int): Option<Note> {
    if notes == [] then None else if notes[0].id == id then Some(notes[0]) else RowOf(notes[1..], id)
  }

  /** INSERT ... ON CONFLICT (firm_id, id) DO UPDATE: the claim of an existing note is left alone. */
  function Upserted(notes: seq<Note>, n: Note): seq<Note> {
    if notes == [] then [n]
    else if notes[0].id == n.id then [notes[0].(amount := n.amount)] + notes[1..]
    else [notes[0]] + Upserted(notes[1..], n)
  }

  function Without(notes: seq<Note>, id: int): seq<Note> {
    if notes == [] then []
    else if notes[0].id == id then Without(notes[1..], id)
    else [notes[0]] + Without(notes[1..], id)
  }

  function WithoutClaims(notes: seq<Note>, gone: set<int>): seq<Note> {
    if notes == [] then []
    else if notes[0].claim in gone then WithoutClaims(notes[1..], gone)
    else [notes[0]] + WithoutClaims(notes[1..], gone)
  }

  // ------------------------------------------------------------------ operations

  datatype Outcome = Applied(rev: nat) | Conflict(rev: nat) | Rejected(code: string)

  function Fresh(frozen: Frozen, schemeName: string): Claim { Claim(true, 1, frozen, Claimable, None, schemeName) }

  /** The rows a new claim collides with: its own id, or its scheme and period. */
  function Clashes(b: Book, id: int, f: Frozen): set<int> {
    set x | x in b.claims
            && (x == id || (b.claims[x].frozen.scheme == f.scheme && b.claims[x].frozen.periodFrom == f.periodFrom))
  }

  /** A live clash refuses the claim; a single tombstone makes room, its notes going with it. */
  function Created(b: Book, id: int, f: Frozen, schemeName: string): Book {
    var clashes := Clashes(b, id, f);
    if clashes == {} then b.(claims := b.claims[id := Fresh(f, schemeName)])
    else if |clashes| == 1 && forall x :: x in clashes ==> !b.claims[x].live then
      Book((b.claims - clashes)[id := Fresh(f, schemeName)], WithoutClaims(b.notes, clashes))
    else b
  }

  datatype Patch = Patch(status: Option<Status>, sentOn: Option<Option<int>>, schemeName: Option<string>,
                         touchesFrozen: bool)

  predicate LiveClaim(b: Book, id: int) { id in b.claims && b.claims[id].live }

  predicate Passes(b: Book, id: int, rev: Option<nat>) {
    LiveClaim(b, id) && (rev.Some? ==> rev.value == b.claims[id].rev)
  }

  function Patched(b: Book, id: int, p: Patch, ifMatch: Option<nat>): Book {
    if !Passes(b, id, ifMatch) || p.touchesFrozen then b
    else
      var c := b.claims[id];
      var c' := c.(status := OrElse(p.status, c.status), sentOn := OrElse(p.sentOn, c.sentOn),
                   schemeName := OrElse(p.schemeName, c.schemeName), rev := c.rev + 1);
      b.(claims := b.claims[id := Restated(b, id, c')])
  }

  /** Status recomputed from the notes as they now are; a missing claim is left missing. */
  function Recomputed(b: Book, id: int, bump: nat): Book {
    if id !in b.claims then b
    else b.(claims := b.claims[id := Restated(b, id, b.claims[id]).(rev := b.claims[id].rev + bump)])
  }

  function NoteAdded(b: Book, n: Note): Book {
    if !LiveClaim(b, n.claim) then b else Recomputed(b.(notes := Upserted(b.notes, n)), n.claim, 1)
  }

  predicate Has(notes: seq<Note>, note: int, claim: int) {
    exists i :: 0 <= i < |notes| && notes[i].id == note && notes[i].claim == claim
  }

  /** DELETE ... WHERE id = ? AND claim_id = ? */
  function NoteDeleted(b: Book, claim: int, note: int): Book {
    if !LiveClaim(b, claim) then b
    else Recomputed(b.(notes := if Has(b.notes, note, claim) then Without(b.notes, note) else b.notes), claim, 1)
  }

  function ClaimDeleted(b: Book, id: int): Book {
    if LiveClaim(b, id) then b.(claims := b.claims[id := b.claims[id].(live := false, rev := b.claims[id].rev + 1)])
    else b
  }

  /** Pushed, a delete is gated by revision; of a claim that is gone it is success. */
  function DeletePushed(b: Book, id: int, rev: Option<nat>): (Book, Outcome) {
    if !LiveClaim(b, id) then (b, Applied(OrElse(rev, 0)))
    else if rev != Some(b.claims[id].rev) then (b, Conflict(b.claims[id].rev))
    else (ClaimDeleted(b, id), Applied(b.claims[id].rev + 1))
  }

  /** The live claims among `ids` go with the scheme or the company they were raised on. */
  function ClaimsDeleted(b: Book, ids: set<int>): Book {
    b.(claims := map id | id in b.claims ::
         if b.claims[id].live && id in ids then b.claims[id].(live := false, rev := b.claims[id].rev + 1)
         else b.claims[id])
  }

  /**
   * A note inside a pushed claim, as far as the loop over them gets with it: passed over for want of a
   * proper id, written, or throwing (an undated note, or one that cannot be read at all).
   */
  datatype SentNote = Skipped | Good(id: int, amount: real) | Throwing(code: string)

  /** `None` is a field that was not sent; a period that does not parse is none. */
  datatype SentClaim = SentClaim(idOk: bool, rev: Option<nat>, scheme: Option<int>, company: Option<int>,
                                 periodFrom: Option<int>, periodTo: Option<int>, title: Option<string>,
                                 bags: Option<real>, accrued: Option<real>, status: Option<Status>,
                                 sentOn: Option<Option<int>>, schemeName: Option<string>, notes: seq<SentNote>)

  predicate WellFormed(m: SentClaim) {
    && m.periodFrom.Some? && m.periodTo.Some? && m.periodFrom.value <= m.periodTo.value
    && OrElse(m.accrued, 0.0) >= 0.0
  }

  function FrozenOf(m: SentClaim): Frozen
    requires WellFormed(m) && m.scheme.Some? && m.company.Some?
  {
    Frozen(m.scheme.value, m.company.value, m.periodFrom.value, m.periodTo.value, OrElse(m.title, ""),
           OrElse(m.bags, 0.0), OrElse(m.accrued, 0.0))
  }

  predicate Apart(a: real, b: real) { a - b > 0.01 || b - a > 0.01 }

  /** The gate on frozen fields: the company is not among them. */
  predicate Tampers(f: Frozen, m: SentClaim) {
    || Apart(OrElse(m.bags, f.bags), f.bags) || Apart(OrElse(m.accrued, f.accrued), f.accrued)
    || OrElse(m.periodFrom, f.periodFrom) != f.periodFrom || OrElse(m.periodTo, f.periodTo) != f.periodTo
    || OrElse(m.title, f.title) != f.title || OrElse(m.scheme, f.scheme) != f.scheme
  }

  function Header(c: Claim, m: SentClaim): Claim {
    c.(status := OrElse(m.status, c.status), sentOn := OrElse(m.sentOn, c.sentOn),
       schemeName := OrElse(m.schemeName, c.schemeName), rev := c.rev + 1)
  }

  predicate NoneThrows(sent: seq<SentNote>) { forall i :: 0 <= i < |sent| ==> !sent[i].Throwing? }

  /** The notes written before the first one that throws. */
  function Taken(notes: seq<Note>, claim: int, sent: seq<SentNote>): seq<Note> {
    if sent == [] then notes
    else
      var before, s := Taken(notes, claim, sent[..|sent| - 1]), sent[|sent| - 1];
      if NoneThrows(sent[..|sent| - 1]) && s.Good? then Upserted(before, Note(s.id, claim, s.amount)) else before
  }

  /** The code of the first note that throws. */
  function ThrownBy(sent: seq<SentNote>): string {
    if sent == [] then "" else if sent[0].Throwing? then sent[0].code else ThrownBy(sent[1..])
  }

  /** The gates before anything of an existing claim is written. */
  predicate ReachesWrites(b: Book, id: int, m: SentClaim) {
    && m.idOk && WellFormed(m) && id in b.claims && m.rev == Some(b.claims[id].rev) && !Tampers(b.claims[id].frozen, m)
  }

  /** The header and the notes, before the status is recomputed. */
  function Written(b: Book, id: int, m: SentClaim): Book
    requires id in b.claims
  {
    Book(b.claims[id := Header(b.claims[id], m)], Taken(b.notes, id, m.notes))
  }

  /** Header first, then the notes, then the status from both. */
  function Edited(b: Book, id: int, m: SentClaim): Book
    requires id in b.claims
  {
    if NoneThrows(m.notes) then Recomputed(Written(b, id, m), id, 0) else Written(b, id, m)
  }

  function Pushed(b: Book, id: int, m: SentClaim): (Book, Outcome) {
    if !m.idOk then (b, Rejected("BAD_ID"))
    else if !WellFormed(m) then (b, Rejected("VALIDATION_FAILED"))
    else if id !in b.claims then
      if m.scheme.None? || m.company.None? then (b, Rejected("VALIDATION_FAILED"))
      else if Clashes(b, id, FrozenOf(m)) != {} then (b, Rejected("DUPLICATE_KEY"))
      else (b.(claims := b.claims[id := Fresh(FrozenOf(m), OrElse(m.schemeName, ""))]), Applied(1))
    else if m.rev != Some(b.claims[id].rev) then (b, Conflict(b.claims[id].rev))
    else if Tampers(b.claims[id].frozen, m) then (b, Rejected("CLAIM_IMMUTABLE"))
    else (Edited(b, id, m), if NoneThrows(m.notes) then Applied(b.claims[id].rev + 1) else Rejected(ThrownBy(m.notes)))
  }

  function NotePushed(b: Book, n: Note, dateOk: bool): Book { if dateOk then NoteAdded(b, n) else b }

  /** Deletes the note wherever it is, and recomputes the claim the device named. */
  function NoteDeletePushed(b: Book, claim: int, note: int): Book {
    Recomputed(b.(notes := Without(b.notes, note)), claim, if LiveClaim(b, claim) then 1 else 0)
  }

  lemma {:induction false} TakenStops(notes: seq<Note>, claim: int, sent: seq<SentNote>, k: nat)
    requires k < |sent| && NoneThrows(sent[..k]) && sent[k].Throwing?
    ensures Taken(notes, claim, sent) == Taken(notes, claim, sent[..k])
    decreases |sent|
  {
    var front := sent[..|sent| - 1];
    if k < |front| {
      assert front[..k] == sent[..k] && front[k] == sent[k];
      TakenStops(notes, claim, front, k);
    } else {
      assert front == sent[..k];
    }
  }

  lemma {:induction false} FirstThrown(sent: seq<SentNote>, k: nat)
    requires k < |sent| && NoneThrows(sent[..k]) && sent[k].Throwing?
    ensures ThrownBy(sent) == sent[k].code
  {
    if k > 0 {
      assert sent[..k][0] == sent[0];
      assert sent[1..][..k - 1] == sent[..k][1..];
      FirstThrown(sent[1..], k - 1);
    }
  }

  class ClaimBook {
    var claims: map<int, Claim>
    var notes: seq<Note>

    function View(): Book
      reads this
    {
      Book(claims, notes)
    }

    constructor ()
      ensures View() == Book(map[], [])
    {
      claims, notes := map[], [];
    }

    /** SELECT amount ... added up. */
    method Received(claim: int) returns (sum: real, any: bool)
      ensures sum == Sum(notes, claim) && any == HasNotes(notes, claim)
    {
      sum, any := 0.0, false;
      for k := 0 to |notes|
        invariant sum == Sum(notes[..k], claim) && any == HasNotes(notes[..k], claim)
      {
        assert notes[..k + 1][..k] == notes[..k];
        assert notes[..k + 1] == notes[..k] + [notes[k]];
        if notes[k].claim == claim {
          sum, any := sum + notes[k].amount, true;
          assert notes[..k + 1][k].claim == claim;
        }
      }
      assert notes[..|notes|] == notes;
    }

    method ApplyAutoStatus(id: int, bump: nat)
      modifies this`claims
      ensures View() == Recomputed(old(View()), id, bump)
    {
      if id !in claims { return; }
      var r := claims[id];
      var sum, any := Received(id);
      var status := AutoStatus(r.status, r.frozen.accrued, sum, any, r.sentOn);
      claims := claims[id := r.(status := status, rev := r.rev + bump)];
    }

    method UpsertNoteRow(n: Note)
      modifies this`notes
      ensures notes == Upserted(old(notes), n)
    {
      notes := Upserted(notes, n);
    }

    method AddCreditNote(n: Note)
      modifies this
      ensures View() == NoteAdded(old(View()), n)
    {
      if n.claim !in claims || !claims[n.claim].live { return; }
      UpsertNoteRow(n);
      ApplyAutoStatus(n.claim, 1);
    }

    method DeleteCreditNote(claim: int, note: int)
      modifies this
      ensures View() == NoteDeleted(old(View()), claim, note)
    {
      if claim !in claims || !claims[claim].live { return; }
      if exists i :: 0 <= i < |notes| && notes[i].id == note && notes[i].claim == claim {
        notes := Without(notes, note);
      }
      ApplyAutoStatus(claim, 1);
    }

    method PatchClaim(id: int, p: Patch, ifMatch: Option<nat>)
      modifies this
      ensures View() == Patched(old(View()), id, p, ifMatch)
    {
      if id !in claims || !claims[id].live { return; }
      var r := claims[id];
      if ifMatch.Some? && ifMatch.value != r.rev { return; }
      if p.touchesFrozen { return; }
      var sum, any := Received(id);
      var sentOn := OrElse(p.sentOn, r.sentOn);
      var status := AutoStatus(OrElse(p.status, r.status), r.frozen.accrued, sum, any, sentOn);
      claims := claims[id := r.(status := status, sentOn := sentOn, schemeName := OrElse(p.schemeName, r.schemeName),
                                rev := r.rev + 1)];
    }

    /** The notes of a pushed claim, one statement each, until one throws. */
    method TakeNotes(id: int, sent: seq<SentNote>) returns (thrown: Option<string>)
      modifies this`notes
      ensures notes == Taken(old(notes), id, sent)
      ensures thrown == if NoneThrows(sent) then None else Some(ThrownBy(sent))
    {
      ghost var was := notes;
      for k := 0 to |sent|
        invariant NoneThrows(sent[..k]) && notes == Taken(was, id, sent[..k])
      {
        var s := sent[k];
        assert sent[..k + 1][..k] == sent[..k];
        match s {
          case Skipped =>
          case Good(note, amount) => UpsertNoteRow(Note(note, id, amount));
          case Throwing(code) =>
            TakenStops(was, id, sent, k);
            FirstThrown(sent, k);
            return Some(code);
        }
      }
      assert sent[..|sent|] == sent;
      thrown := None;
    }

    method ClaimUpsert(id: int, m: SentClaim) returns (out: Outcome)
      modifies this
      ensures (View(), out) == Pushed(old(View()), id, m)
    {
      if !m.idOk { return Rejected("BAD_ID"); }
      if !WellFormed(m) { return Rejected("VALIDATION_FAILED"); }
      if id !in claims {
        if m.scheme.None? || m.company.None? { return Rejected("VALIDATION_FAILED"); }
        var f := FrozenOf(m);
        if Clashes(View(), id, f) != {} { return Rejected("DUPLICATE_KEY"); }
        claims := claims[id := Fresh(f, OrElse(m.schemeName, ""))];
        return Applied(1);
      }
      var r := claims[id];
      if m.rev.None? || m.rev.value != r.rev { return Conflict(r.rev); }
      if Tampers(r.frozen, m) { return Rejected("CLAIM_IMMUTABLE"); }
      claims := claims[id := Header(r, m)];
      var thrown := TakeNotes(id, m.notes);
      if thrown.Some? { return Rejected(thrown.value); }
      ApplyAutoStatus(id, 0);
      out := Applied(r.rev + 1);
    }

    method ClaimDelete(id: int, rev: Option<nat>) returns (out: Outcome)
      modifies this`claims
      ensures (View(), out) == DeletePushed(old(View()), id, rev)
    {
      if id !in claims || !claims[id].live { return Applied(OrElse(rev, 0)); }
      var r := claims[id];
      if rev.None? || rev.value != r.rev { return Conflict(r.rev); }
      claims := claims[id := r.(live := false, rev := r.rev + 1)];
      out := Applied(r.rev + 1);
    }
  }

  // ------------------------------------------------------------------ what one note does to the sums

  lemma JoinedHas(a: seq<Note>, b: seq<Note>, claim: int)
    ensures HasNotes(a + b, claim) <==> HasNotes(a, claim) || HasNotes(b, claim)
  {
    if i :| 0 <= i < |a| && a[i].claim == claim { assert (a + b)[i].claim == claim; }
    if i :| 0 <= i < |b| && b[i].claim == claim { assert (a + b)[|a| + i].claim == claim; }
  }

  lemma {:induction false} SumSplits(a: seq<Note>, b: seq<Note>, claim: int)
    ensures Sum(a + b, claim) == Sum(a, claim) + Sum(b, claim)
    ensures HasNotes(a + b, claim) <==> HasNotes(a, claim) || HasNotes(b, claim)
  {
    if b == [] {
      assert a + b == a;
    } else {
      SumSplits(a, b[..|b| - 1], claim);
      assert (a + b)[..|a + b| - 1] == a + b[..|b| - 1];
      JoinedHas(a, b, claim);
    }
  }

  lemma OneNote(n: Note, claim: int)
    ensures Sum([n], claim) == if n.claim == claim then n.amount else 0.0
    ensures HasNotes([n], claim) <==> n.claim == claim
  {
    assert [n][..0] == [] && [n][0] == n;
  }

  /** A table by its first row and the rest. */
  lemma SumOfFirst(notes: seq<Note>, claim: int)
    requires notes != []
    ensures Sum(notes, claim) == (if notes[0].claim == claim then notes[0].amount else 0.0) + Sum(notes[1..], claim)
    ensures HasNotes(notes, claim) <==> notes[0].claim == claim || HasNotes(notes[1..], claim)
  {
    assert notes == [notes[0]] + notes[1..];
    SumSplits([notes[0]], notes[1..], claim);
    OneNote(notes[0], claim);
  }

  /** What re-sending a note moves on some other claim: the difference, if the note is that claim's. */
  function Moved(notes: seq<Note>, n: Note, other: int): real {
    var r := RowOf(notes, n.id);
    if r.Some? && r.value.claim == other then n.amount - r.value.amount else 0.0
  }

  lemma {:induction false} UpsertMoves(notes: seq<Note>, n: Note, other: int)
    requires other != n.claim
    ensures Sum(Upserted(notes, n), other) == Sum(notes, other) + Moved(notes, n, other)
    ensures HasNotes(Upserted(notes, n), other) <==> HasNotes(notes, other)
  {
    if notes == [] {
      OneNote(n, other);
    } else {
      SumOfFirst(notes, other);
      SumOfFirst(Upserted(notes, n), other);
      if notes[0].id != n.id {
        UpsertMoves(notes[1..], n, other);
        assert Upserted(notes, n)[1..] == Upserted(notes[1..], n);
      }
    }
  }

  lemma {:induction false} UpsertAdds(notes: seq<Note>, n: Note)
    ensures Sum(Upserted(notes, n), n.claim) ==
              Sum(notes, n.claim) + if RowOf(notes, n.id).None? then n.amount else Moved(notes, n, n.claim)
    ensures HasNotes(Upserted(notes, n), n.claim) <==> HasNotes(notes, n.claim) || RowOf(notes, n.id).None?
  {
    if notes == [] {
      OneNote(n, n.claim);
    } else {
      SumOfFirst(notes, n.claim);
      SumOfFirst(Upserted(notes, n), n.claim);
      if notes[0].id != n.id {
        UpsertAdds(notes[1..], n);
        assert Upserted(notes, n)[1..] == Upserted(notes[1..], n);
      }
    }
  }

  lemma {:induction false} UpsertedRow(notes: seq<Note>, n: Note, id: int)
    ensures var r := RowOf(notes, n.id);
            RowOf(Upserted(notes, n), id) ==
              if id != n.id then RowOf(notes, id) else Some(if r.Some? then r.value.(amount := n.amount) else n)
  {
    if notes != [] && notes[0].id != n.id {
      UpsertedRow(notes[1..], n, id);
      assert Upserted(notes, n)[1..] == Upserted(notes[1..], n);
    }
  }

  // ------------------------------------------------------------------ what a pushed claim's notes move

  /** The claim a note belongs to once a push for `claim` has sent it: a stored note's own, or else that one. */
  function Owner(notes: seq<Note>, claim: int, note: int): int {
    var r := RowOf(notes, note);
    if r.Some? then r.value.claim else claim
  }

  /** The amount last sent for a note, of the notes before the first that throws. */
  function LastAmount(sent: seq<SentNote>, note: int): Option<real> {
    if sent == [] then None
    else
      var front, s := sent[..|sent| - 1], sent[|sent| - 1];
      if NoneThrows(front) && s.Good? && s.id == note then Some(s.amount) else LastAmount(front, note)
  }

  /** What a note stood at: the amount last sent, or else the one stored, or else nothing. */
  function StoodAt(notes: seq<Note>, sent: seq<SentNote>, note: int): real {
    var r, last := RowOf(notes, note), LastAmount(sent, note);
    if last.Some? then last.value else if r.Some? then r.value.amount else 0.0
  }

  /** The differences the notes sent for `claim`, up to the first that throws, make to the notes of `x`. */
  function Change(notes: seq<Note>, claim: int, sent: seq<SentNote>, x: int): real {
    if sent == [] then 0.0
    else
      var front, s := sent[..|sent| - 1], sent[|sent| - 1];
      Change(notes, claim, front, x)
      + if NoneThrows(front) && s.Good? && Owner(notes, claim, s.id) == x then s.amount - StoodAt(notes, front, s.id)
        else 0.0
  }

  /** A note not stored yet comes before the first that throws. */
  predicate BringsNew(notes: seq<Note>, sent: seq<SentNote>) {
    exists i :: 0 <= i < |sent| && sent[i].Good? && NoneThrows(sent[..i]) && RowOf(notes, sent[i].id).None?
  }

  lemma {:induction false} RowOfFinds(notes: seq<Note>, id: int)
    ensures RowOf(notes, id).Some? ==> RowOf(notes, id).value in notes && RowOf(notes, id).value.id == id
    ensures RowOf(notes, id).None? ==> forall n :: n in notes ==> n.id != id
  {
    if notes != [] {
      RowOfFinds(notes[1..], id);
      assert forall n :: n in notes <==> n == notes[0] || n in notes[1..];
    }
  }

  lemma {:induction false} TakenRow(notes: seq<Note>, claim: int, sent: seq<SentNote>, note: int)
    ensures RowOf(Taken(notes, claim, sent), note) ==
              if RowOf(notes, note).None? && LastAmount(sent, note).None? then None
              else Some(Note(note, Owner(notes, claim, note), StoodAt(notes, sent, note)))
  {
    if sent == [] {
      RowOfFinds(notes, note);
    } else {
      var front, s := sent[..|sent| - 1], sent[|sent| - 1];
      TakenRow(notes, claim, front, note);
      if NoneThrows(front) && s.Good? {
        UpsertedRow(Taken(notes, claim, front), Note(s.id, claim, s.amount), note);
      }
    }
  }

  /** The notes written add up, on every claim, to what was there and what each note sent changes. */
  lemma {:induction false} TakenSum(notes: seq<Note>, claim: int, sent: seq<SentNote>, x: int)
    ensures Sum(Taken(notes, claim, sent), x) == Sum(notes, x) + Change(notes, claim, sent, x)
  {
    if sent != [] {
      var front, s := sent[..|sent| - 1], sent[|sent| - 1];
      TakenSum(notes, claim, front, x);
      if NoneThrows(front) && s.Good? {
        TakenRow(notes, claim, front, s.id);
        if x == claim {
          UpsertAdds(Taken(notes, claim, front), Note(s.id, claim, s.amount));
        } else {
          UpsertMoves(Taken(notes, claim, front), Note(s.id, claim, s.amount), x);
        }
      }
    }
  }

  lemma BringsNewStep(notes: seq<Note>, sent: seq<SentNote>)
    requires sent != []
    ensures var front, s := sent[..|sent| - 1], sent[|sent| - 1];
            BringsNew(notes, sent) <==>
              BringsNew(notes, front) || (NoneThrows(front) && s.Good? && RowOf(notes, s.id).None?)
  {
    var front := sent[..|sent| - 1];
    assert forall i :: 0 <= i < |front| ==> front[..i] == sent[..i] && front[i] == sent[i];
  }

  lemma AlreadyBrought(notes: seq<Note>, sent: seq<SentNote>, note: int)
    requires RowOf(notes, note).None? && LastAmount(sent, note).Some?
    ensures BringsNew(notes, sent)
  {
    var front, s := sent[..|sent| - 1], sent[|sent| - 1];
    BringsNewStep(notes, sent);
    if !(NoneThrows(front) && s.Good? && s.id == note) { AlreadyBrought(notes, front, note); }
  }

  lemma {:induction false} TakenOwn(notes: seq<Note>, claim: int, sent: seq<SentNote>)
    ensures HasNotes(Taken(notes, claim, sent), claim) <==> HasNotes(notes, claim) || BringsNew(notes, sent)
  {
    if sent != [] {
      var front, s := sent[..|sent| - 1], sent[|sent| - 1];
      TakenOwn(notes, claim, front);
      BringsNewStep(notes, sent);
      if NoneThrows(front) && s.Good? {
        TakenRow(notes, claim, front, s.id);
        UpsertAdds(Taken(notes, claim, front), Note(s.id, claim, s.amount));
        if RowOf(notes, s.id).None? && LastAmount(front, s.id).Some? { AlreadyBrought(notes, front, s.id); }
      }
    }
  }

  ghost predicate OneRowPerNote(notes: seq<Note>) { forall i, j :: 0 <= i < j < |notes| ==> notes[i].id != notes[j].id }

  lemma {:induction false} WithoutAbsent(notes: seq<Note>, id: int)
    requires forall n :: n in notes ==> n.id != id
    ensures Without(notes, id) == notes
  {
    if notes != [] {
      assert notes[0] in notes;
      WithoutAbsent(notes[1..], id);
    }
  }

  /** The claim has a note besides this one. */
  predicate HasOther(notes: seq<Note>, claim: int, id: int) {
    exists i :: 0 <= i < |notes| && notes[i].claim == claim && notes[i].id != id
  }

  function AmountOn(r: Option<Note>, claim: int): real {
    if r.Some? && r.value.claim == claim then r.value.amount else 0.0
  }

  lemma {:induction false} WithoutSum(notes: seq<Note>, id: int, other: int)
    requires OneRowPerNote(notes)
    ensures Sum(Without(notes, id), other) == Sum(notes, other) - AmountOn(RowOf(notes, id), other)
  {
    if notes != [] {
      var rest := notes[1..];
      SumOfFirst(notes, other);
      if notes[0].id == id {
        assert forall n :: n in rest ==> n.id != id;
        WithoutAbsent(rest, id);
      } else {
        WithoutSum(rest, id, other);
        SumOfFirst(Without(notes, id), other);
        assert Without(notes, id)[1..] == Without(rest, id);
      }
    }
  }

  lemma {:induction false} WithoutHas(notes: seq<Note>, id: int, other: int)
    ensures HasNotes(Without(notes, id), other) <==> HasOther(notes, other, id)
  {
    if notes != [] {
      var rest := notes[1..];
      WithoutHas(rest, id, other);
      assert notes == [notes[0]] + rest;
      if notes[0].id != id { JoinedHas([notes[0]], Without(rest, id), other); }
      if i :| 0 <= i < |rest| && rest[i].claim == other && rest[i].id != id { assert notes[i + 1] == rest[i]; }
      if notes[0].claim == other && notes[0].id != id { assert [notes[0]][0].claim == other; }
    }
  }

  lemma {:induction false} WithoutClaimsKeeps(notes: seq<Note>, gone: set<int>, other: int)
    requires other !in gone
    ensures Sum(WithoutClaims(notes, gone), other) == Sum(notes, other)
    ensures HasNotes(WithoutClaims(notes, gone), other) <==> HasNotes(notes, other)
  {
    if notes != [] {
      SumOfFirst(notes, other);
      WithoutClaimsKeeps(notes[1..], gone, other);
      if notes[0].claim !in gone {
        SumOfFirst(WithoutClaims(notes, gone), other);
        assert WithoutClaims(notes, gone)[1..] == WithoutClaims(notes[1..], gone);
      }
    }
  }

  lemma {:induction false} NoNotes(notes: seq<Note>, claim: int)
    requires !HasNotes(notes, claim)
    ensures Sum(notes, claim) == 0.0
  {
    if notes != [] {
      var front := notes[..|notes| - 1];
      assert forall i :: 0 <= i < |front| ==> front[i] == notes[i];
      NoNotes(front, claim);
    }
  }

  // ------------------------------------------------------------------ which rows there are

  lemma TheRow(notes: seq<Note>, n: Note)
    requires OneRowPerNote(notes) && n in notes
    ensures RowOf(notes, n.id) == Some(n)
  {
    RowOfFinds(notes, n.id);
  }

  lemma {:induction false} UpsertedRows(notes: seq<Note>, n: Note)
    ensures forall x :: x in Upserted(notes, n) ==>
              || x in notes
              || (x.id == n.id && (x.claim == n.claim || exists y :: y in notes && y.id == n.id && y.claim == x.claim))
    ensures OneRowPerNote(notes) ==> OneRowPerNote(Upserted(notes, n))
  {
    if notes != [] && notes[0].id != n.id {
      var rest := notes[1..];
      UpsertedRows(rest, n);
      assert forall x :: x in notes <==> x == notes[0] || x in rest;
      assert forall i :: 0 <= i < |rest| ==> rest[i] == notes[i + 1];
      assert OneRowPerNote(notes) ==> forall x :: x in Upserted(rest, n) ==> x.id != notes[0].id;
    }
  }

  lemma {:induction false} WithoutRows(notes: seq<Note>, id: int)
    ensures forall x :: x in Without(notes, id) ==> x in notes
    ensures OneRowPerNote(notes) ==> OneRowPerNote(Without(notes, id))
  {
    if notes != [] {
      var rest := notes[1..];
      WithoutRows(rest, id);
      assert forall x :: x in notes <==> x == notes[0] || x in rest;
      assert forall i :: 0 <= i < |rest| ==> rest[i] == notes[i + 1];
      assert OneRowPerNote(notes) ==> forall x :: x in rest ==> x.id != notes[0].id;
    }
  }

  lemma {:induction false} WithoutClaimsRows(notes: seq<Note>, gone: set<int>)
    ensures forall x :: x in WithoutClaims(notes, gone) ==> x in notes && x.claim !in gone
    ensures OneRowPerNote(notes) ==> OneRowPerNote(WithoutClaims(notes, gone))
  {
    if notes != [] {
      var rest := notes[1..];
      WithoutClaimsRows(rest, gone);
      assert forall x :: x in notes <==> x == notes[0] || x in rest;
      assert forall i :: 0 <= i < |rest| ==> rest[i] == notes[i + 1];
      assert OneRowPerNote(notes) ==> forall x :: x in rest ==> x.id != notes[0].id;
    }
  }

  lemma {:induction false} TakenRows(notes: seq<Note>, claim: int, sent: seq<SentNote>)
    ensures OneRowPerNote(notes) ==> OneRowPerNote(Taken(notes, claim, sent))
    ensures forall x :: x in Taken(notes, claim, sent) ==>
              x.claim == claim || exists y :: y in notes && y.claim == x.claim
  {
    if sent != [] {
      var front, s := sent[..|sent| - 1], sent[|sent| - 1];
      TakenRows(notes, claim, front);
      if s.Good? { UpsertedRows(Taken(notes, claim, front), Note(s.id, claim, s.amount)); }
    }
  }

  lemma {:induction false} TakenHas(notes: seq<Note>, claim: int, sent: seq<SentNote>, other: int)
    requires other != claim
    ensures HasNotes(Taken(notes, claim, sent), other) <==> HasNotes(notes, other)
  {
    if sent != [] {
      var front, s := sent[..|sent| - 1], sent[|sent| - 1];
      TakenHas(notes, claim, front, other);
      if s.Good? { UpsertMoves(Taken(notes, claim, front), Note(s.id, claim, s.amount), other); }
    }
  }

  // ------------------------------------------------------------------ the status follows the money

  /** The rule settles the status, and settling it again changes nothing. */
  lemma AutoStatusFollowsMoney(status: Status, accrued: real, received: real, hasNotes: bool, sentOn: Option<int>)
    ensures var s := AutoStatus(status, accrued, received, hasNotes, sentOn);
            && (s.Received? <==> hasNotes && received >= accrued - TOLERANCE)
            && AutoStatus(s, accrued, received, hasNotes, sentOn) == s
            && (!status.Received? && !s.Received? ==> s == status)
            && (status.Received? && !s.Received? ==> (s.Claimed? <==> sentOn.Some?) && (s.Claimable? <==> sentOn.None?))
  {
  }

  ghost predicate StatusOk(b: Book, id: int) {
    LiveClaim(b, id) ==> (b.claims[id].status.Received? <==> Settled(b.notes, id, b.claims[id].frozen.accrued))
  }

  /** Notes belong to claims that exist, and their ids are a key: the foreign and the primary key of the table. */
  ghost predicate KeysOk(b: Book) { OneRowPerNote(b.notes) && forall n :: n in b.notes ==> n.claim in b.claims }

  /** Every live claim is received exactly when its notes settle it. */
  ghost predicate Inv(b: Book) { KeysOk(b) && forall id :: StatusOk(b, id) }

  /** Recomputing one claim makes it right. */
  lemma RecomputedOk(b: Book, id: int, bump: nat)
    ensures StatusOk(Recomputed(b, id, bump), id)
  {
    if id in b.claims {
      var c := b.claims[id];
      AutoStatusFollowsMoney(c.status, c.frozen.accrued, Sum(b.notes, id), HasNotes(b.notes, id), c.sentOn);
    }
  }

  predicate SettledAlike(before: seq<Note>, after: seq<Note>, id: int, accrued: real) {
    Settled(before, id, accrued) <==> Settled(after, id, accrued)
  }

  /**
   * An operation that rewrites the note table and recomputes one claim keeps the rule for all of them
   * exactly when no other live claim is carried across its threshold.
   */
  lemma OnlyOneRecomputed(b: Book, b1: Book, id: int, bump: nat)
    requires Inv(b) && KeysOk(b1)
    requires b1.claims.Keys == b.claims.Keys && forall x :: x in b.claims && x != id ==> b1.claims[x] == b.claims[x]
    ensures Inv(Recomputed(b1, id, bump)) <==>
              forall x :: x != id && LiveClaim(b, x) ==> SettledAlike(b.notes, b1.notes, x, b.claims[x].frozen.accrued)
  {
    RecomputedOk(b1, id, bump);
    var b' := Recomputed(b1, id, bump);
    assert forall n :: n in b'.notes ==> n.claim in b'.claims;
    forall x | x != id
      ensures StatusOk(b', x) <==>
                (LiveClaim(b, x) ==> SettledAlike(b.notes, b1.notes, x, b.claims[x].frozen.accrued))
    {
      assert StatusOk(b, x);
    }
  }

  // ------------------------------------------------------------------ exactly when each operation keeps the rule

  /** The claim's notes, `delta` more or less, reach what was accrued. */
  predicate Reaches(b: Book, id: int, delta: real)
    requires id in b.claims
  {
    Sum(b.notes, id) + delta >= b.claims[id].frozen.accrued - TOLERANCE
  }

  /**
   * The note is new, or this claim's own, or a dead claim's; or re-sending it does not carry the live
   * claim it belongs to across its threshold.
   */
  predicate HarmlessNote(b: Book, n: Note) {
    var r := RowOf(b.notes, n.id);
    r.Some? && r.value.claim != n.claim && LiveClaim(b, r.value.claim) ==>
      (Reaches(b, r.value.claim, n.amount - r.value.amount) <==> Reaches(b, r.value.claim, 0.0))
  }

  lemma UpsertAlike(b: Book, n: Note, x: int)
    requires KeysOk(b) && LiveClaim(b, x) && x != n.claim
    ensures var r := RowOf(b.notes, n.id);
            SettledAlike(b.notes, Upserted(b.notes, n), x, b.claims[x].frozen.accrued) <==>
              (r.Some? && r.value.claim == x ==> (Reaches(b, x, n.amount - r.value.amount) <==> Reaches(b, x, 0.0)))
  {
    UpsertMoves(b.notes, n, x);
    RowOfFinds(b.notes, n.id);
    var r := RowOf(b.notes, n.id);
    if r.Some? && r.value.claim == x {
      var i :| 0 <= i < |b.notes| && b.notes[i] == r.value;
      assert HasNotes(b.notes, x);
    }
  }

  predicate NotOn(r: Option<Note>, claim: int) { r.None? || r.value.claim != claim }

  /** A note written from the web keeps every claim's status right exactly when it is harmless. */
  lemma NoteAddedIff(b: Book, n: Note)
    requires Inv(b) && LiveClaim(b, n.claim)
    ensures Inv(NoteAdded(b, n)) <==> HarmlessNote(b, n)
    ensures forall x :: NotOn(RowOf(b.notes, n.id), x) ==> StatusOk(NoteAdded(b, n), x)
  {
    var b1 := b.(notes := Upserted(b.notes, n));
    UpsertedRows(b.notes, n);
    OnlyOneRecomputed(b, b1, n.claim, 1);
    RecomputedOk(b1, n.claim, 1);
    forall x | x != n.claim && LiveClaim(b, x)
      ensures SettledAlike(b.notes, b1.notes, x, b.claims[x].frozen.accrued) <==>
                (RowOf(b.notes, n.id).Some? && RowOf(b.notes, n.id).value.claim == x ==> HarmlessNote(b, n))
    {
      UpsertAlike(b, n, x);
    }
    forall x | NotOn(RowOf(b.notes, n.id), x) ensures StatusOk(NoteAdded(b, n), x) {
      assert StatusOk(b, x);
    }
  }

  /**
   * The old claim, in full: a note that is on the live claim x and is re-sent under another live
   * claim leaves x's status right exactly when x's notes, with the new amount for the old, are on the
   * same side of its threshold as before.
   */
  lemma ForeignNoteIff(b: Book, n: Note, k: nat)
    requires Inv(b) && LiveClaim(b, n.claim)
    requires k < |b.notes| && b.notes[k].id == n.id && b.notes[k].claim != n.claim && LiveClaim(b, b.notes[k].claim)
    ensures var x, accrued := b.notes[k].claim, b.claims[b.notes[k].claim].frozen.accrued;
            var stays := (Sum(b.notes, x) - b.notes[k].amount + n.amount >= accrued - TOLERANCE
                          <==> Sum(b.notes, x) >= accrued - TOLERANCE);
            && (StatusOk(NoteAdded(b, n), x) <==> stays) && (StatusOk(NotePushed(b, n, true), x) <==> stays)
            && (Inv(NoteAdded(b, n)) <==> stays)
  {
    assert b.notes[k] in b.notes;
    TheRow(b.notes, b.notes[k]);
    NoteAddedIff(b, n);
    UpsertAlike(b, n, b.notes[k].claim);
    assert StatusOk(b, b.notes[k].claim);
  }

  /** Nobody but the named claim loses a note; or the live claim that does stays on its side of the threshold. */
  predicate HarmlessDelete(b: Book, claim: int, note: int) {
    var r := RowOf(b.notes, note);
    r.Some? && r.value.claim != claim && LiveClaim(b, r.value.claim) ==>
      (HasOther(b.notes, r.value.claim, note) && Reaches(b, r.value.claim, -r.value.amount)
       <==> Reaches(b, r.value.claim, 0.0))
  }

  lemma OthersAreNotes(notes: seq<Note>, claim: int, id: int)
    ensures HasOther(notes, claim, id) ==> HasNotes(notes, claim)
    ensures HasNotes(notes, claim) && !HasOther(notes, claim, id) ==>
              exists i :: 0 <= i < |notes| && notes[i].claim == claim && notes[i].id == id
  {
  }

  lemma WithoutAlike(b: Book, note: int, x: int)
    requires KeysOk(b) && LiveClaim(b, x)
    ensures var r := RowOf(b.notes, note);
            SettledAlike(b.notes, Without(b.notes, note), x, b.claims[x].frozen.accrued) <==>
              (r.Some? && r.value.claim == x ==>
                 (HasOther(b.notes, x, note) && Reaches(b, x, -r.value.amount) <==> Reaches(b, x, 0.0)))
  {
    var r := RowOf(b.notes, note);
    WithoutSum(b.notes, note, x);
    WithoutHas(b.notes, note, x);
    RowOfFinds(b.notes, note);
    OthersAreNotes(b.notes, x, note);
    if r.Some? && r.value.claim == x {
      var i :| 0 <= i < |b.notes| && b.notes[i] == r.value;
      assert HasNotes(b.notes, x);
    } else if i :| 0 <= i < |b.notes| && b.notes[i].claim == x && b.notes[i].id == note {
      assert b.notes[i] in b.notes;
      TheRow(b.notes, b.notes[i]);
    }
  }

  /** A pushed note delete, whichever claim it names, keeps every status right exactly when it is harmless. */
  lemma NoteDeletePushedIff(b: Book, claim: int, note: int)
    requires Inv(b)
    ensures Inv(NoteDeletePushed(b, claim, note)) <==> HarmlessDelete(b, claim, note)
  {
    var b1 := b.(notes := Without(b.notes, note));
    WithoutRows(b.notes, note);
    OnlyOneRecomputed(b, b1, claim, if LiveClaim(b, claim) then 1 else 0);
    forall x | x != claim && LiveClaim(b, x)
      ensures SettledAlike(b.notes, b1.notes, x, b.claims[x].frozen.accrued) <==>
                (RowOf(b.notes, note).Some? && RowOf(b.notes, note).value.claim == x ==> HarmlessDelete(b, claim, note))
    {
      WithoutAlike(b, note, x);
    }
  }

  /** The web application's delete carries the claim's id, and needs no trust. */
  lemma NoteDeletedKeeps(b: Book, claim: int, note: int)
    requires Inv(b)
    ensures Inv(NoteDeleted(b, claim, note))
  {
    if LiveClaim(b, claim) {
      if i :| 0 <= i < |b.notes| && b.notes[i].id == note && b.notes[i].claim == claim {
        assert b.notes[i] in b.notes;
        TheRow(b.notes, b.notes[i]);
        NoteDeletePushedIff(b, claim, note);
      } else {
        OnlyOneRecomputed(b, b, claim, 1);
      }
    }
  }

  /** No other live claim is carried across its threshold by the notes a pushed claim writes. */
  ghost predicate HarmlessNotes(b: Book, id: int, sent: seq<SentNote>) {
    forall x :: x != id && LiveClaim(b, x) && HasNotes(b.notes, x) ==>
      (Reaches(b, x, Change(b.notes, id, sent, x)) <==> Reaches(b, x, 0.0))
  }

  /** With the notes sent, up to the first that throws, the claim has a note and its notes reach what was accrued. */
  predicate SettledWith(b: Book, id: int, sent: seq<SentNote>)
    requires id in b.claims
  {
    (HasNotes(b.notes, id) || BringsNew(b.notes, sent)) && Reaches(b, id, Change(b.notes, id, sent, id))
  }

  /**
   * What the status sent, or the one there was, says about the money agrees with the notes up to the
   * first that throws.
   */
  predicate HonestStatus(b: Book, id: int, m: SentClaim)
    requires id in b.claims
  {
    OrElse(m.status, b.claims[id].status).Received? <==> SettledWith(b, id, m.notes)
  }

  lemma SettledByTaken(b: Book, id: int, sent: seq<SentNote>)
    requires id in b.claims
    ensures Settled(Taken(b.notes, id, sent), id, b.claims[id].frozen.accrued) <==> SettledWith(b, id, sent)
  {
    TakenSum(b.notes, id, sent, id);
    TakenOwn(b.notes, id, sent);
  }

  lemma WrittenKeys(b: Book, id: int, m: SentClaim)
    requires KeysOk(b) && id in b.claims
    ensures KeysOk(Written(b, id, m))
  {
    TakenRows(b.notes, id, m.notes);
  }

  lemma NotesAlike(b: Book, id: int, sent: seq<SentNote>, x: int)
    requires KeysOk(b) && x != id && LiveClaim(b, x)
    ensures SettledAlike(b.notes, Taken(b.notes, id, sent), x, b.claims[x].frozen.accrued) <==>
              (HasNotes(b.notes, x) ==>
                 (Reaches(b, x, Change(b.notes, id, sent, x)) <==> Reaches(b, x, 0.0)))
  {
    TakenHas(b.notes, id, sent, x);
    TakenSum(b.notes, id, sent, x);
  }

  lemma RecomputedEditIff(b: Book, id: int, m: SentClaim)
    requires Inv(b) && id in b.claims
    ensures Inv(Recomputed(Written(b, id, m), id, 0)) <==> HarmlessNotes(b, id, m.notes)
  {
    WrittenKeys(b, id, m);
    OnlyOneRecomputed(b, Written(b, id, m), id, 0);
    forall x | x != id && LiveClaim(b, x)
      ensures SettledAlike(b.notes, Taken(b.notes, id, m.notes), x, b.claims[x].frozen.accrued) <==>
                (HasNotes(b.notes, x) ==>
                   (Reaches(b, x, Change(b.notes, id, m.notes, x)) <==> Reaches(b, x, 0.0)))
    {
      NotesAlike(b, id, m.notes, x);
    }
  }

  /** Without the recomputation the invariant additionally rests on the claim itself being right already. */
  lemma UnrecomputedIff(b1: Book, id: int, bump: nat)
    requires KeysOk(b1)
    ensures Inv(b1) <==> Inv(Recomputed(b1, id, bump)) && StatusOk(b1, id)
  {
    RecomputedOk(b1, id, bump);
    var b' := Recomputed(b1, id, bump);
    assert forall n :: n in b'.notes ==> n.claim in b'.claims;
    forall x | x != id ensures StatusOk(b', x) <==> StatusOk(b1, x) {
    }
  }

  /**
   * A pushed edit keeps every status right exactly when its notes are harmless to other claims and,
   * should one of them throw, the status it wrote agrees with the notes written before that one.
   */
  lemma EditedIff(b: Book, id: int, m: SentClaim)
    requires Inv(b) && id in b.claims
    ensures Inv(Edited(b, id, m)) <==>
              HarmlessNotes(b, id, m.notes) && (NoneThrows(m.notes) || !LiveClaim(b, id) || HonestStatus(b, id, m))
  {
    WrittenKeys(b, id, m);
    RecomputedEditIff(b, id, m);
    UnrecomputedIff(Written(b, id, m), id, 0);
    SettledByTaken(b, id, m.notes);
  }

  /**
   * A pushed claim whose k-th note is the first to throw is rejected with its header and the notes
   * before k written and no status recomputed: its status is right afterwards exactly when the one it
   * sent, or the one there was, agrees with what the notes before k settle.
   */
  lemma ThrowingNoteIff(b: Book, id: int, m: SentClaim, k: nat)
    requires LiveClaim(b, id) && ReachesWrites(b, id, m)
    requires k < |m.notes| && NoneThrows(m.notes[..k]) && m.notes[k].Throwing?
    ensures Pushed(b, id, m).1 == Rejected(m.notes[k].code)
    ensures StatusOk(Pushed(b, id, m).0, id) <==>
              (OrElse(m.status, b.claims[id].status).Received? <==> SettledWith(b, id, m.notes[..k]))
  {
    SettledByTaken(b, id, m.notes[..k]);
    TakenStops(b.notes, id, m.notes, k);
    FirstThrown(m.notes, k);
    assert !NoneThrows(m.notes);
  }

  lemma CreatedKeeps(b: Book, id: int, f: Frozen, schemeName: string)
    requires Inv(b)
    ensures Inv(Created(b, id, f, schemeName))
  {
    var clashes, b' := Clashes(b, id, f), Created(b, id, f, schemeName);
    WithoutClaimsRows(b.notes, clashes);
    forall x ensures StatusOk(b', x) {
      assert StatusOk(b, x);
      if x == id && b' != b {
        assert id in b.claims <==> id in clashes;
        assert forall n :: n in b'.notes ==> n in b.notes && n.claim != id;
        assert forall i :: 0 <= i < |b'.notes| ==> b'.notes[i] in b'.notes;
        assert !HasNotes(b'.notes, id);
      } else if x !in clashes {
        WithoutClaimsKeeps(b.notes, clashes, x);
      }
    }
  }

  lemma PatchedKeeps(b: Book, id: int, p: Patch, ifMatch: Option<nat>)
    requires Inv(b)
    ensures Inv(Patched(b, id, p, ifMatch))
  {
    var b' := Patched(b, id, p, ifMatch);
    forall x ensures StatusOk(b', x) {
      assert StatusOk(b, x);
    }
  }

  lemma TombstoneKeeps(b: Book, id: int)
    requires Inv(b)
    ensures Inv(ClaimDeleted(b, id))
  {
    forall x ensures StatusOk(ClaimDeleted(b, id), x) {
      assert StatusOk(b, x);
    }
  }

  lemma CascadeKeeps(b: Book, ids: set<int>)
    requires Inv(b)
    ensures Inv(ClaimsDeleted(b, ids))
  {
    forall x ensures StatusOk(ClaimsDeleted(b, ids), x) {
      assert StatusOk(b, x);
    }
  }

  // ------------------------------------------------------------------ runs

  datatype Op =
    | Create(id: int, frozen: Frozen, schemeName: string)
    | PatchIt(id: int, patch: Patch, ifMatch: Option<nat>)
    | AddNote(note: Note)
    | DeleteNote(id: int, noteId: int)
    | Delete(id: int)
    | Cascade(ids: set<int>)
    | Push(id: int, sent: SentClaim)
    | PushNote(note: Note, dateOk: bool)
    | PushNoteDelete(id: int, noteId: int)
    | PushDelete(id: int, rev: Option<nat>)

  function Step(b: Book, op: Op): Book {
    match op
    case Create(id, f, name) => Created(b, id, f, name)
    case PatchIt(id, p, ifMatch) => Patched(b, id, p, ifMatch)
    case AddNote(n) => NoteAdded(b, n)
    case DeleteNote(id, note) => NoteDeleted(b, id, note)
    case Delete(id) => ClaimDeleted(b, id)
    case Cascade(ids) => ClaimsDeleted(b, ids)
    case Push(id, m) => Pushed(b, id, m).0
    case PushNote(n, dateOk) => NotePushed(b, n, dateOk)
    case PushNoteDelete(id, note) => NoteDeletePushed(b, id, note)
    case PushDelete(id, rev) => DeletePushed(b, id, rev).0
  }

  /** What each operation must meet, and no more: creations, patches and deletions from the web need nothing. */
  ghost predicate Harmless(b: Book, op: Op) {
    match op
    case AddNote(n) => LiveClaim(b, n.claim) ==> HarmlessNote(b, n)
    case PushNote(n, dateOk) => dateOk && LiveClaim(b, n.claim) ==> HarmlessNote(b, n)
    case PushNoteDelete(id, note) => HarmlessDelete(b, id, note)
    case Push(id, m) =>
      ReachesWrites(b, id, m) ==>
        HarmlessNotes(b, id, m.notes) && (NoneThrows(m.notes) || !LiveClaim(b, id) || HonestStatus(b, id, m))
    case _ => true
  }

  lemma PushedIff(b: Book, id: int, m: SentClaim)
    requires Inv(b)
    ensures Inv(Pushed(b, id, m).0) <==> Harmless(b, Push(id, m))
  {
    if ReachesWrites(b, id, m) {
      EditedIff(b, id, m);
    } else if m.idOk && WellFormed(m) && id !in b.claims && m.scheme.Some? && m.company.Some? {
      CreatedKeeps(b, id, FrozenOf(m), OrElse(m.schemeName, ""));
    }
  }

  /** Every operation, web or pushed, keeps all statuses right if and only if it is harmless. */
  lemma StepKeepsIff(b: Book, op: Op)
    requires Inv(b)
    ensures Inv(Step(b, op)) <==> Harmless(b, op)
  {
    match op
    case Create(id, f, name) => CreatedKeeps(b, id, f, name);
    case PatchIt(id, p, ifMatch) => PatchedKeeps(b, id, p, ifMatch);
    case AddNote(n) => if LiveClaim(b, n.claim) { NoteAddedIff(b, n); }
    case DeleteNote(id, note) => NoteDeletedKeeps(b, id, note);
    case Delete(id) => TombstoneKeeps(b, id);
    case Cascade(ids) => CascadeKeeps(b, ids);
    case Push(id, m) => PushedIff(b, id, m);
    case PushNote(n, _) => if LiveClaim(b, n.claim) { NoteAddedIff(b, n); }
    case PushNoteDelete(id, note) => NoteDeletePushedIff(b, id, note);
    case PushDelete(id, _) => TombstoneKeeps(b, id);
  }

  ghost predicate AllHarmless(b: Book, ops: seq<Op>)
    decreases |ops|
  {
    ops == [] || (Harmless(b, ops[0]) && AllHarmless(Step(b, ops[0]), ops[1..]))
  }

  ghost predicate RightThroughout(b: Book, ops: seq<Op>)
    decreases |ops|
  {
    Inv(b) && (ops == [] || RightThroughout(Step(b, ops[0]), ops[1..]))
  }

  /**
   * A run keeps every live claim received exactly when it has a note and its notes reach what was
   * accrued, from start to end, if and only if each of its operations is harmless where it happens.
   */
  lemma {:induction false} StatusFollowsMoney(b: Book, ops: seq<Op>)
    requires Inv(b)
    ensures RightThroughout(b, ops) <==> AllHarmless(b, ops)
    decreases |ops|
  {
    if ops != [] {
      StepKeepsIff(b, ops[0]);
      if Inv(Step(b, ops[0])) { StatusFollowsMoney(Step(b, ops[0]), ops[1..]); }
    }
  }

  /** The note, if it is there at all, is on this claim. */
  ghost predicate OnlyOn(notes: seq<Note>, note: int, claim: int) {
    forall n :: n in notes && n.id == note ==> n.claim == claim
  }

  /** A caller's discipline that is enough: a note id stays with one claim, and the notes in a push can be written. */
  ghost predicate Disciplined(b: Book, op: Op) {
    match op
    case AddNote(n) => OnlyOn(b.notes, n.id, n.claim)
    case PushNote(n, _) => OnlyOn(b.notes, n.id, n.claim)
    case PushNoteDelete(id, note) => OnlyOn(b.notes, note, id)
    case Push(id, m) => NoneThrows(m.notes) && forall s :: s in m.notes && s.Good? ==> OnlyOn(b.notes, s.id, id)
    case _ => true
  }

  lemma {:induction false} OwnNotesMoveNobody(notes: seq<Note>, claim: int, sent: seq<SentNote>, other: int)
    requires other != claim && forall s :: s in sent && s.Good? ==> OnlyOn(notes, s.id, claim)
    ensures Change(notes, claim, sent, other) == 0.0
  {
    if sent != [] {
      var front, s := sent[..|sent| - 1], sent[|sent| - 1];
      assert sent == front + [s];
      OwnNotesMoveNobody(notes, claim, front, other);
      if s.Good? {
        assert s in sent;
        RowOfFinds(notes, s.id);
      }
    }
  }

  lemma DisciplineIsHarmless(b: Book, op: Op)
    requires Inv(b) && Disciplined(b, op)
    ensures Harmless(b, op)
  {
    match op
    case AddNote(n) => RowOfFinds(b.notes, n.id);
    case PushNote(n, _) => RowOfFinds(b.notes, n.id);
    case PushNoteDelete(_, note) => RowOfFinds(b.notes, note);
    case Push(id, m) =>
      forall x | x != id ensures Change(b.notes, id, m.notes, x) == 0.0 {
        OwnNotesMoveNobody(b.notes, id, m.notes, x);
      }
    case _ =>
  }

  // ------------------------------------------------------------------ frozen fields, outcomes

  lemma LiveClaimStays(b: Book, x: int, f: Frozen, schemeName: string, id: int)
    requires LiveClaim(b, id)
    ensures id in Created(b, x, f, schemeName).claims && Created(b, x, f, schemeName).claims[id] == b.claims[id]
  {
    assert x == id ==> id in Clashes(b, x, f);
  }

  /** What a live claim was raised on never changes, whatever is done to it. */
  lemma FrozenForGood(b: Book, op: Op, id: int)
    requires LiveClaim(b, id)
    ensures id in Step(b, op).claims && Step(b, op).claims[id].frozen == b.claims[id].frozen
  {
    match op
    case Create(x, f, name) => LiveClaimStays(b, x, f, name, id);
    case _ =>
  }

  /**
   * An applied push is stored under the revision it reports, one above the one it named; a conflict
   * changes nothing; a rejection changes nothing exactly when it came before the header was written,
   * that is, unless a note threw.
   */
  lemma ClaimOutcomeTellsTheTruth(b: Book, id: int, m: SentClaim)
    ensures var (b', out) := Pushed(b, id, m);
            && (out.Applied? ==> id in b'.claims && b'.claims[id].rev == out.rev
                                 && (id in b.claims ==> m.rev == Some((out.rev - 1) as nat))
                                 && (id in b.claims ==> StatusOk(b', id)))
            && (out.Conflict? ==> b' == b && id in b.claims && out.rev == b.claims[id].rev)
            && (!out.Applied? ==> (b' == b <==> !(ReachesWrites(b, id, m) && !NoneThrows(m.notes))))
  {
    var (b', out) := Pushed(b, id, m);
    if ReachesWrites(b, id, m) {
      assert b'.claims[id].rev == b.claims[id].rev + 1;
      RecomputedOk(Written(b, id, m), id, 0);
    }
  }

  // ------------------------------------------------------------------ what becomes of a claim and its notes

  /**
   * The claim's status, settled by the notes from the one given: received exactly if they settle it; if
   * not, as given, but a received one falls back to claimed if it was sent and to claimable if not.
   */
  predicate StatusFrom(given: Status, c: Claim, notes: seq<Note>, id: int) {
    && (c.status.Received? <==> Settled(notes, id, c.frozen.accrued))
    && (!c.status.Received? && !given.Received? ==> c.status == given)
    && (!c.status.Received? && given.Received? ==> (c.status.Claimed? <==> c.sentOn.Some?))
    && (!c.status.Received? && given.Received? ==> (c.status.Claimable? <==> c.sentOn.None?))
  }

  /** A patch is taken exactly of a live claim, at the revision named if one is, that touches no frozen field. */
  lemma PatchIsExact(b: Book, id: int, p: Patch, ifMatch: Option<nat>)
    ensures var b' := Patched(b, id, p, ifMatch);
            if LiveClaim(b, id) && (ifMatch.Some? ==> ifMatch.value == b.claims[id].rev) && !p.touchesFrozen then
              var c := b.claims[id];
              && id in b'.claims && b' == b.(claims := b.claims[id := b'.claims[id]])
              && b'.claims[id] == Claim(true, c.rev + 1, c.frozen, b'.claims[id].status, OrElse(p.sentOn, c.sentOn),
                                        OrElse(p.schemeName, c.schemeName))
              && StatusFrom(OrElse(p.status, c.status), b'.claims[id], b.notes, id)
            else b' == b
  {
  }

  /** A claim recomputed one revision up. */
  predicate Resettled(b: Book, b': Book, id: int, bump: nat) {
    && id in b.claims && id in b'.claims && b'.claims == b.claims[id := b'.claims[id]]
    && b'.claims[id] == b.claims[id].(status := b'.claims[id].status, rev := b.claims[id].rev + bump)
    && StatusFrom(b.claims[id].status, b'.claims[id], b'.notes, id)
  }

  lemma {:induction false} WithoutRow(notes: seq<Note>, id: int, x: int)
    ensures RowOf(Without(notes, id), x) == if x == id then None else RowOf(notes, x)
  {
    if notes != [] { WithoutRow(notes[1..], id, x); }
  }

  /**
   * A note from the web is there as sent, on its claim if it is new and else on the one it had; a dead
   * claim takes none.
   */
  lemma NoteAddedIs(b: Book, n: Note, x: int)
    ensures var (b', r) := (NoteAdded(b, n), RowOf(b.notes, n.id));
            if LiveClaim(b, n.claim) then
              && Resettled(b, b', n.claim, 1)
              && RowOf(b'.notes, x) == if x != n.id then RowOf(b.notes, x)
                                       else Some(Note(n.id, if r.Some? then r.value.claim else n.claim, n.amount))
            else b' == b
    ensures NotePushed(b, n, true) == NoteAdded(b, n) && NotePushed(b, n, false) == b
  {
    UpsertedRow(b.notes, n, x);
    RowOfFinds(b.notes, n.id);
  }

  /** From the web a note goes if it is on the claim named; pushed, wherever it is. No other note goes. */
  lemma NoteDeletedIs(b: Book, claim: int, note: int, x: int)
    requires OneRowPerNote(b.notes)
    ensures var (b', r) := (NoteDeleted(b, claim, note), RowOf(b.notes, note));
            if LiveClaim(b, claim) then
              && Resettled(b, b', claim, 1)
              && RowOf(b'.notes, x) == if x == note && r.Some? && r.value.claim == claim then None
                                       else RowOf(b.notes, x)
            else b' == b
    ensures var b' := NoteDeletePushed(b, claim, note);
            && RowOf(b'.notes, x) == (if x == note then None else RowOf(b.notes, x))
            && (claim in b.claims ==> Resettled(b, b', claim, if LiveClaim(b, claim) then 1 else 0))
            && (claim !in b.claims ==> b'.claims == b.claims)
  {
    WithoutRow(b.notes, note, x);
    RowOfFinds(b.notes, note);
    if i :| 0 <= i < |b.notes| && b.notes[i].id == note && b.notes[i].claim == claim {
      assert b.notes[i] in b.notes;
      TheRow(b.notes, b.notes[i]);
    }
  }

  /** A claim stands in the way of a new one: it has its id, or its scheme and period. */
  predicate Collides(b: Book, x: int, id: int, f: Frozen) {
    && x in b.claims
    && (x == id || (b.claims[x].frozen.scheme == f.scheme && b.claims[x].frozen.periodFrom == f.periodFrom))
  }

  lemma OneAtMost(s: set<int>)
    ensures |s| <= 1 <==> forall y, z :: y in s && z in s ==> y == z
    ensures |s| == 0 <==> s == {}
  {
    if s != {} {
      var y := Pick(s);
      if s == {y} {
        assert forall z :: z in s ==> z == y;
      } else {
        var z := Pick(s - {y});
        SubsetSize({y, z}, s);
      }
    }
  }

  lemma {:induction false} WithoutClaimsIs(notes: seq<Note>, gone: set<int>)
    ensures forall n :: n in WithoutClaims(notes, gone) <==> n in notes && n.claim !in gone
  {
    if notes != [] {
      WithoutClaimsIs(notes[1..], gone);
      assert forall n :: n in notes <==> n == notes[0] || n in notes[1..];
    }
  }

  /**
   * A claim is raised exactly if no live one is in its way and not more than one tombstone: that one
   * goes, with its notes; the new claim is claimable and unsent, on what it was raised on.
   */
  lemma CreateIsExact(b: Book, id: int, f: Frozen, schemeName: string, x: int)
    ensures var b' := Created(b, id, f, schemeName);
            var free := (forall y :: Collides(b, y, id, f) ==> !b.claims[y].live)
                        && forall y, z :: Collides(b, y, id, f) && Collides(b, z, id, f) ==> y == z;
            && (!free ==> b' == b)
            && (free ==>
                  && id in b'.claims && b'.claims[id] == Claim(true, 1, f, Claimable, None, schemeName)
                  && (x != id ==>
                        && (x in b'.claims <==> x in b.claims && !Collides(b, x, id, f))
                        && (x in b'.claims ==> b'.claims[x] == b.claims[x]))
                  && (forall n :: n in b'.notes <==> n in b.notes && !Collides(b, n.claim, id, f)))
  {
    var clashes := Clashes(b, id, f);
    assert forall y :: y in clashes <==> Collides(b, y, id, f);
    OneAtMost(clashes);
    WithoutClaimsIs(b.notes, clashes);
  }

  /** A deletion, or a cascade, tombstones the live claims named one revision up, with all they hold, and no others. */
  lemma DeletesExactly(b: Book, ids: set<int>, id: int, x: int)
    requires x in b.claims
    ensures var (one, many, c) := (ClaimDeleted(b, id), ClaimsDeleted(b, ids), b.claims[x]);
            var dead := Claim(false, c.rev + 1, c.frozen, c.status, c.sentOn, c.schemeName);
            && one.notes == many.notes == b.notes && one.claims.Keys == many.claims.Keys == b.claims.Keys
            && one.claims[x] == (if x == id && c.live then dead else c)
            && many.claims[x] == (if x in ids && c.live then dead else c)
  {
  }

  /**
   * A pushed delete of a live claim is applied exactly when it names the claim's revision, and the claim
   * is then dead under the reported one, one above; else it conflicts, and nothing changes. Of a claim
   * that is gone it is success, and nothing changes.
   */
  lemma ClaimDeleteTellsTheTruth(b: Book, id: int, rev: Option<nat>)
    ensures var (b', out) := DeletePushed(b, id, rev);
            && (LiveClaim(b, id) ==>
                  var c := b.claims[id];
                  && (out.Applied? <==> rev == Some(c.rev)) && (out.Conflict? <==> rev != Some(c.rev))
                  && (out.Applied? ==>
                        && b' == b.(claims := b.claims[id := Claim(false, c.rev + 1, c.frozen, c.status, c.sentOn,
                                                                   c.schemeName)])
                        && out.rev == c.rev + 1)
                  && (out.Conflict? ==> b' == b && out.rev == c.rev))
            && (!LiveClaim(b, id) ==> b' == b && out == Applied(OrElse(rev, 0)))
  {
  }

  /** A pushed claim is well formed: its period is there and in order, and its accrual, if sent, not negative. */
  predicate InOrder(m: SentClaim) {
    && m.periodFrom.Some? && m.periodTo.Some? && m.periodFrom.value <= m.periodTo.value
    && (m.accrued.Some? ==> m.accrued.value >= 0.0)
  }

  predicate Within(sent: Option<real>, stored: real) {
    sent.Some? ==> -0.01 <= sent.value - stored <= 0.01
  }

  predicate Echoes<T(==)>(sent: Option<T>, stored: T) { sent.Some? ==> sent.value == stored }

  /** Every frozen field that is sent is sent as it is stored; the company is not looked at. */
  predicate EchoesFrozen(f: Frozen, m: SentClaim) {
    && Within(m.bags, f.bags) && Within(m.accrued, f.accrued) && Echoes(m.periodFrom, f.periodFrom)
    && Echoes(m.periodTo, f.periodTo) && Echoes(m.title, f.title) && Echoes(m.scheme, f.scheme)
  }

  /** Which answer a pushed claim gets, in the order of the checks. */
  lemma PushAnswerIs(b: Book, id: int, m: SentClaim)
    ensures var out := Pushed(b, id, m).1;
            && (out.Applied? <==>
                  && m.idOk && InOrder(m)
                  && if id in b.claims then
                       m.rev == Some(b.claims[id].rev) && EchoesFrozen(b.claims[id].frozen, m) && NoneThrows(m.notes)
                     else
                       m.scheme.Some? && m.company.Some? && forall x :: !Collides(b, x, id, FrozenOf(m)))
            && (out.Conflict? <==> m.idOk && InOrder(m) && id in b.claims && m.rev != Some(b.claims[id].rev))
            && (out.Rejected? ==>
                  out.code == if !m.idOk then "BAD_ID"
                              else if !InOrder(m) then "VALIDATION_FAILED"
                              else if id !in b.claims then
                                (if m.scheme.None? || m.company.None? then "VALIDATION_FAILED" else "DUPLICATE_KEY")
                              else if !EchoesFrozen(b.claims[id].frozen, m) then "CLAIM_IMMUTABLE"
                              else ThrownBy(m.notes))
  {
    if m.scheme.Some? && m.company.Some? && InOrder(m) {
      assert forall x :: x in Clashes(b, id, FrozenOf(m)) <==> Collides(b, x, id, FrozenOf(m));
    }
  }

  /**
   * What an applied claim is stored as: new, on exactly what was sent; edited, with the open fields sent,
   * the frozen ones as they were and the status settled by its notes; and no other claim is touched.
   */
  lemma AppliedClaimIs(b: Book, id: int, m: SentClaim)
    requires Pushed(b, id, m).1.Applied?
    ensures var b' := Pushed(b, id, m).0;
            && id in b'.claims && b'.claims == b.claims[id := b'.claims[id]]
            && var c' := b'.claims[id];
               if id in b.claims then
                 var c := b.claims[id];
                 && c' == Claim(c.live, c.rev + 1, c.frozen, c'.status, OrElse(m.sentOn, c.sentOn),
                                OrElse(m.schemeName, c.schemeName))
                 && StatusFrom(OrElse(m.status, c.status), c', b'.notes, id) && b'.notes == Taken(b.notes, id, m.notes)
               else
                 && b'.notes == b.notes
                 && c' == Claim(true, 1, Frozen(m.scheme.value, m.company.value, m.periodFrom.value, m.periodTo.value,
                                                OrElse(m.title, ""), OrElse(m.bags, 0.0), OrElse(m.accrued, 0.0)),
                                Claimable, None, OrElse(m.schemeName, ""))
  {
  }

  // ------------------------------------------------------------------ an input for each failure

  function TwoClaims(settled: Claim, open: Claim, n: Note): Book { Book(map[1 := settled, 2 := open], [n]) }

  /** A note re-sent as nothing under another claim: the first claim stays received without the money. */
  lemma ForeignNoteMisleads(settled: Claim, open: Claim, amount: real)
    requires settled.live && settled.status.Received? && open.live && !open.status.Received?
    requires settled.frozen.accrued - TOLERANCE <= amount
    requires 0.0 < settled.frozen.accrued - TOLERANCE
    ensures Inv(TwoClaims(settled, open, Note(7, 1, amount)))
    ensures !StatusOk(NoteAdded(TwoClaims(settled, open, Note(7, 1, amount)), Note(7, 2, 0.0)), 1)
  {
    var b := TwoClaims(settled, open, Note(7, 1, amount));
    forall id ensures StatusOk(b, id) {
      OneNote(Note(7, 1, amount), id);
      assert id in b.claims ==> id == 1 || id == 2;
    }
    OneNote(Note(7, 1, amount), 1);
    ForeignNoteIff(b, Note(7, 2, 0.0), 0);
  }
}
