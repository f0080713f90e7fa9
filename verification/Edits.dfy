/** What the forms submit: the guards in front of an edit, the row it asks for, and what it moves. */
module Edits {
  import opened Text
  import opened Simplify
  import opened Pairs
  import opened Ledger
  import opened Writes
  import opened Netting
  import opened Runs
  import opened Access
  import opened Effects
  import opened Shuffle
  import opened Split

  datatype ServiceError =
    | NotFound | ImmutableEntry | IsSettlement | NotSettlement | BadSettlement | NotMovable | MoveNoAck
    | SettlementAmount | SettlementCurrency | BadSplit(split: SplitError) | Rejected(write: WriteError)
    | NothingToArchive | WithYourself | NotEditor | NotMember | NotRelated | NotGroupMember | Forbidden

  /** What an expense form submits; version is the one its page was rendered from. */
  datatype ExpenseInput = ExpenseInput(
    total: int, split: Method, date: string, currency: string, paidBy: UserId,
    group: Option<GroupId>, lines: seq<Line>, version: nat)

  datatype SettlementInput = SettlementInput(
    amount: int, date: string, currency: string, group: Option<GroupId>, version: nat)

  function NewExpense(input: ExpenseInput, parts: seq<Part>): Expense {
    Expense(input.total, input.split, input.date, Upper(input.currency), input.paidBy, input.group, None, false, 1, parts)
  }

  lemma NewExpenseAddable(rng: Prng, input: ExpenseInput, parts: seq<Part>)
    requires ComputeOf(rng, input.split, input.total, input.paidBy, input.date, input.lines) == Success(parts)
    ensures Addable(NewExpense(input, parts)) && NoRepeat(parts)
  {
    ComputeValid(rng, input.split, input.total, input.paidBy, input.date, input.lines);
    UpperTwice(input.currency);
  }

  /** The people an expense would be between. */
  function Affected(input: ExpenseInput): set<UserId> {
    LineUsers(input.lines) + {input.paidBy}
  }

  function PlaceError(target: Option<GroupId>): ServiceError {
    if target.Some? then NotMember else NotRelated
  }

  /** Why MoveExpense refuses before it computes anything. An admin need not belong to the target
      group, and an admin who is no part of the transaction need not be related to anyone. */
  function MoveRefusal(a: Access, m: Table, id: Id, input: ExpenseInput, actor: UserId, acknowledged: bool): Option<ServiceError> {
    if id !in m then Some(NotFound)
    else if Immutable(m[id]) then Some(ImmutableEntry)
    else if m[id].split == SETTLEMENT then Some(IsSettlement)
    else if !MayEdit(a, id, m[id], actor) then Some(NotEditor)
    else if !CanMove(m[id]) then Some(NotMovable)
    else if m[id].group != input.group && !acknowledged then Some(MoveNoAck)
    else if !PlaceAllowed(a, input.group, Affected(input), if a.admin(actor) then input.paidBy else actor,
                          if ViaAdmin(a, id, m[id], actor) then input.paidBy else actor) then Some(PlaceError(input.group))
    else None
  }

  /** Rows that were let into a group are all members' rows. */
  lemma RowsBelong(rng: Prng, a: Access, g: GroupId, input: ExpenseInput, actor: UserId, owner: UserId, parts: seq<Part>)
    requires ComputeOf(rng, input.split, input.total, input.paidBy, input.date, input.lines) == Success(parts)
    requires input.group == Some(g) && PlaceAllowed(a, input.group, Affected(input), actor, owner)
    ensures AllMembers(a, g, Users(parts)) && a.member(g, actor)
  {
    ComputeValid(rng, input.split, input.total, input.paidBy, input.date, input.lines);
  }

  function OrStored(s: string, stored: string): string {
    if s == "" then stored else s
  }

  /** The other party of a two-row settlement. */
  function OtherParty(e: Expense): Option<UserId> {
    if |e.parts| != 2 then None
    else
      var other := if e.parts[1].user != e.paidBy then e.parts[1].user
                   else if e.parts[0].user != e.paidBy then e.parts[0].user else 0;
      if (e.parts[0].user == e.paidBy || e.parts[1].user == e.paidBy) && e.paidBy != 0 && other != 0
      then Some(other) else None
  }

  /** The two parties, and the actor unless an admin. */
  function PairAnd(a: Access, payer: UserId, other: UserId, actor: UserId): set<UserId> {
    {payer, other} + (if a.admin(actor) then {} else {actor})
  }

  function UpdateRefusal(a: Access, m: Table, id: Id, input: SettlementInput, actor: UserId, acknowledged: bool): Option<ServiceError> {
    if id !in m then Some(NotFound)
    else if Immutable(m[id]) then Some(ImmutableEntry)
    else if m[id].split != SETTLEMENT then Some(NotSettlement)
    else if !MayEdit(a, id, m[id], actor) then Some(NotEditor)
    else if !CanMove(m[id]) then Some(NotMovable)
    else if input.amount <= 0 then Some(SettlementAmount)
    else if Upper(OrStored(input.currency, m[id].currency)) != m[id].currency then Some(SettlementCurrency)
    else if m[id].group != input.group && !acknowledged then Some(MoveNoAck)
    else if OtherParty(m[id]).None? then Some(BadSettlement)
    else if input.group.Some? && !AllMembers(a, input.group.value, PairAnd(a, m[id].paidBy, OtherParty(m[id]).value, actor)) then Some(NotMember)
    else None
  }

  /** The settlement after its edit: same parties, direction and currency. */
  function EditedSettlement(e: Expense, input: SettlementInput): Expense
    requires OtherParty(e).Some?
  {
    TwoRows(e.paidBy, OtherParty(e).value, input.amount, e.currency, SETTLEMENT, input.group, OrStored(input.date, e.date))
  }

  lemma EditedAddable(e: Expense, input: SettlementInput)
    requires OtherParty(e).Some? && ValidExpense(e)
    ensures Addable(EditedSettlement(e, input)) && NoRepeat(EditedSettlement(e, input).parts)
  {
    var n := EditedSettlement(e, input);
    var s := Shift(e.paidBy, OtherParty(e).value, e.currency, input.amount);
    TwoRowsEffect(n, s, None, PairKey("", 0, 0), "", 0);
  }

  // ---------------------------------------------- what the guards let through

  /** The actor paid, recorded or shares in the expense. */
  predicate TakesPart(a: Access, id: Id, e: Expense, actor: UserId) {
    e.paidBy == actor || a.addedBy(id) == actor || actor in Users(e.parts)
  }

  /** A new expense is let in exactly if everyone it would be between belongs where it goes. */
  lemma AddPassesIff(a: Access, input: ExpenseInput, actor: UserId)
    ensures PlaceAllowed(a, input.group, Affected(input), actor, actor) <==>
      match input.group
      case Some(g) =>
        (forall u :: u in LineUsers(input.lines) ==> a.member(g, u)) && a.member(g, input.paidBy) && a.member(g, actor)
      case None =>
        && (forall u :: u in LineUsers(input.lines) ==> u == actor || a.related(actor, u))
        && (input.paidBy == actor || a.related(actor, input.paidBy))
  {
  }

  /** An expense passes the guards exactly if it is live and no entry of another kind, the actor
      takes part in it or is an admin, a change of group was acknowledged, and everyone it would be
      between belongs where it goes: to the group, the actor too unless an admin, or to those
      related to the actor, or to the new payer where only the admin's right lets the actor edit. */
  lemma MovePassesIff(a: Access, m: Table, id: Id, input: ExpenseInput, actor: UserId, acknowledged: bool)
    ensures MoveRefusal(a, m, id, input, actor, acknowledged) == None <==>
      && id in m && !m[id].deleted && m[id].conversionTo == None
      && m[id].split !in {NETTING, SETTLEMENT, ARCHIVE, CURRENCY_CONVERSION}
      && (TakesPart(a, id, m[id], actor) || a.admin(actor))
      && (m[id].group == input.group || acknowledged)
      && GoesWhereAll(a, input, actor, if TakesPart(a, id, m[id], actor) then actor else input.paidBy)
  {
  }

  predicate GoesWhereAll(a: Access, input: ExpenseInput, actor: UserId, owner: UserId) {
    match input.group
    case Some(g) =>
      && (forall u :: u in LineUsers(input.lines) ==> a.member(g, u)) && a.member(g, input.paidBy)
      && (a.member(g, actor) || a.admin(actor))
    case None =>
      && (forall u :: u in LineUsers(input.lines) ==> u == owner || a.related(owner, u))
      && (input.paidBy == owner || a.related(owner, input.paidBy))
  }

  /** The two rows of a settlement from p to o. */
  predicate PaysOther(e: Expense, p: UserId, o: UserId) {
    && |e.parts| == 2 && e.paidBy == p && p != o
    && ((e.parts[0].user == p && e.parts[1].user == o) || (e.parts[0].user == o && e.parts[1].user == p))
  }

  /** The other party is read off exactly two rows, the payer's and somebody else's. */
  lemma OtherPartyIff(e: Expense, o: UserId)
    ensures OtherParty(e) == Some(o) <==> PaysOther(e, e.paidBy, o) && e.paidBy != 0 && o != 0
  {
  }

  /** A settlement passes the guards exactly if it is live, the actor takes part in it or is an
      admin, the new amount is positive and in its currency, a change of group was acknowledged, and
      it is between two people who belong to the group it goes to, the actor too unless an admin. */
  lemma UpdatePassesIff(a: Access, m: Table, id: Id, input: SettlementInput, actor: UserId, acknowledged: bool)
    ensures UpdateRefusal(a, m, id, input, actor, acknowledged) == None <==>
      && id in m && !m[id].deleted && m[id].conversionTo == None && m[id].split == SETTLEMENT
      && (TakesPart(a, id, m[id], actor) || a.admin(actor))
      && input.amount > 0
      && (if input.currency == "" then Upper(m[id].currency) else Upper(input.currency)) == m[id].currency
      && (m[id].group == input.group || acknowledged)
      && exists o :: PaysOther(m[id], m[id].paidBy, o) && m[id].paidBy != 0 && o != 0 && MayMeet(a, input.group, m[id].paidBy, o, actor)
  {
    if id in m {
      var e := m[id];
      if OtherParty(e).Some? { OtherPartyIff(e, OtherParty(e).value); }
      forall o | PaysOther(e, e.paidBy, o) && e.paidBy != 0 && o != 0 ensures OtherParty(e) == Some(o) {
        OtherPartyIff(e, o);
      }
      if OtherParty(e).Some? { MeetMeans(a, input.group, e.paidBy, OtherParty(e).value, actor); }
    }
  }

  predicate MayMeet(a: Access, group: Option<GroupId>, p: UserId, o: UserId, actor: UserId) {
    group.Some? ==> a.member(group.value, p) && a.member(group.value, o) && (a.member(group.value, actor) || a.admin(actor))
  }

  lemma MeetMeans(a: Access, group: Option<GroupId>, p: UserId, o: UserId, actor: UserId)
    ensures MayMeet(a, group, p, o, actor) <==> (group.Some? ==> AllMembers(a, group.value, PairAnd(a, p, o, actor)))
  {
  }

  // ------------------------------------------------------- what an edit moves

  /** Every net has gained this much. */
  ghost predicate NetsGain(before: Db, after: Db, gain: (Option<GroupId>, string, UserId) -> int) {
    forall sc, cur, u :: Net(after.expenses, sc, cur, u) == Net(before.expenses, sc, cur, u) + gain(sc, cur, u)
  }

  /** What rows submitted for a group and currency give u. */
  function InputNet(input: ExpenseInput, parts: seq<Part>, sc: Option<GroupId>, cur: string, u: UserId): int {
    if sc == input.group && cur == Upper(input.currency) then PartOf(parts, u) else 0
  }

  /** The row holds what was submitted. */
  ghost predicate HoldsInput(e: Expense, input: ExpenseInput, parts: seq<Part>) {
    && e.amount == input.total && e.split == input.split && e.date == input.date && e.currency == Upper(input.currency)
    && e.paidBy == input.paidBy && e.group == input.group && e.parts == parts && !e.deleted && e.conversionTo == None
  }

  /** The submitted expense is recorded, and nothing else moves. */
  ghost predicate Added(before: Db, after: Db, input: ExpenseInput, parts: seq<Part>) {
    var id := before.next;
    && id in after.expenses && OnlyRow(before, after, id)
    && HoldsInput(after.expenses[id], input, parts) && after.expenses[id].version == 1
    && NetsGain(before, after, (sc, cur, u) => InputNet(input, parts, sc, cur, u))
  }

  lemma AddMoves(db: Db, input: ExpenseInput, parts: seq<Part>, n: Db)
    requires ValidDb(db) && Create(db, NewExpense(input, parts)) == Success(n)
    ensures Added(db, n, input, parts)
  {
    var e := NewExpense(input, parts);
    forall sc, cur, u ensures Net(n.expenses, sc, cur, u) == Net(db.expenses, sc, cur, u) + InputNet(input, parts, sc, cur, u) {
      CreateMoves(db, e, n, sc, PairKey("", 0, 0), cur, u);
    }
    CreateMoves(db, e, n, None, PairKey("", 0, 0), "", 0);
  }

  /** A recurring expense's next occurrence is its template again, on the given date and with the
      rows computed for it. */
  lemma OccurrenceMoves(db: Db, tmpl: Expense, rows: seq<Part>, date: string, n: Db)
    requires ValidDb(db) && Create(db, Copied(tmpl, rows, date)) == Success(n)
    ensures db.next in n.expenses && OnlyRow(db, n, db.next)
    ensures var e := n.expenses[db.next];
      && e.amount == tmpl.amount && e.split == tmpl.split && e.currency == tmpl.currency && e.paidBy == tmpl.paidBy
      && e.group == tmpl.group && e.date == date && e.parts == rows && !e.deleted && e.version == 1 && e.conversionTo == None
    ensures NetsGain(db, n, (sc, cur, u) => if sc == tmpl.group && cur == tmpl.currency then PartOf(rows, u) else 0)
  {
    var e := Copied(tmpl, rows, date);
    CreateMoves(db, e, n, None, PairKey("", 0, 0), "", 0);
    forall sc, cur, u
      ensures Net(n.expenses, sc, cur, u)
           == Net(db.expenses, sc, cur, u) + if sc == tmpl.group && cur == tmpl.currency then PartOf(rows, u) else 0
    {
      CreateMoves(db, e, n, sc, PairKey("", 0, 0), cur, u);
    }
  }

  /** The submitted expense replaces what the row held, and nothing else moves. */
  ghost predicate Replaced(before: Db, after: Db, id: Id, input: ExpenseInput, parts: seq<Part>)
    requires id in before.expenses
  {
    var orig := before.expenses[id];
    && id in after.expenses && OnlyRow(before, after, id)
    && HoldsInput(after.expenses[id], input, parts) && after.expenses[id].version == orig.version + 1
    && NetsGain(before, after, (sc, cur, u) => InputNet(input, parts, sc, cur, u) - LiveNet(orig, sc, cur, u))
  }

  lemma MoveMoves(db: Db, id: Id, input: ExpenseInput, parts: seq<Part>, token: nat, n: Db)
    requires id in db.expenses && CanMove(db.expenses[id]) && Update(db, id, NewExpense(input, parts), token) == Success(n)
    ensures Replaced(db, n, id, input, parts)
  {
    var e, orig := NewExpense(input, parts), db.expenses[id];
    forall sc, cur, u
      ensures Net(n.expenses, sc, cur, u) == Net(db.expenses, sc, cur, u) + (InputNet(input, parts, sc, cur, u) - LiveNet(orig, sc, cur, u))
    {
      EditMoves(db, id, e, token, n, sc, PairKey("", 0, 0), cur, u);
    }
    EditMoves(db, id, e, token, n, None, PairKey("", 0, 0), "", 0);
  }

  /** What p paying o an amount gives u. */
  function PayNet(p: UserId, o: UserId, amount: int, g: Option<GroupId>, currency: string, sc: Option<GroupId>, cur: string, u: UserId): int {
    if sc != g || cur != currency then 0 else if u == p then amount else if u == o then -amount else 0
  }

  /** p still pays o, now the new amount: in an unchanged group p's net moves by the difference and
      o's against it; on a move the old amount leaves one scope and the new one enters the other. */
  ghost predicate Corrected(before: Db, after: Db, id: Id, input: SettlementInput, p: UserId, o: UserId)
    requires id in before.expenses
  {
    var orig := before.expenses[id];
    && id in after.expenses
    && PaysNow(after.expenses[id], p, o, input.amount, orig.currency, input.group, if input.date == "" then orig.date else input.date)
    && NetsGain(before, after, (sc, cur, u) =>
         PayNet(p, o, input.amount, input.group, orig.currency, sc, cur, u)
         - PayNet(p, o, PartOf(orig.parts, p), orig.group, orig.currency, sc, cur, u))
  }

  /** A live settlement from p to o. */
  ghost predicate PaysNow(e: Expense, p: UserId, o: UserId, amount: int, currency: string, group: Option<GroupId>, date: string) {
    && e.split == SETTLEMENT && e.paidBy == p && e.amount == amount && e.currency == currency && e.group == group && !e.deleted
    && e.date == date
    && Users(e.parts) == {p, o} && PartOf(e.parts, p) == amount && PartOf(e.parts, o) == -amount
  }

  lemma TwoRowNet(e: Expense, p: UserId, o: UserId, sc: Option<GroupId>, cur: string, u: UserId)
    requires PaysOther(e, p, o) && Balanced(e.parts)
    ensures LiveNet(e, sc, cur, u) == PayNet(p, o, PartOf(e.parts, p), e.group, e.currency, sc, cur, u)
  {
    assert e.parts == [e.parts[0], e.parts[1]];
    TwoParts(e.parts[0], e.parts[1], u, "");
    TwoParts(e.parts[0], e.parts[1], p, "");
    TwoParts(e.parts[0], e.parts[1], o, "");
  }

  lemma TwoRowsPay(p: UserId, o: UserId, amount: int, cur: string, g: Option<GroupId>, date: string)
    requires p != o
    ensures var e := TwoRows(p, o, amount, cur, SETTLEMENT, g, date);
      PaysOther(e, p, o) && Balanced(e.parts) && PaysNow(e, p, o, amount, cur, g, date)
  {
    TwoParts(Part(p, amount), Part(o, -amount), p, "");
    TwoParts(Part(p, amount), Part(o, -amount), o, "");
  }

  lemma CorrectionMoves(db: Db, id: Id, input: SettlementInput, o: UserId, token: nat, n: Db)
    requires ValidDb(db) && id in db.expenses && CanMove(db.expenses[id]) && OtherParty(db.expenses[id]) == Some(o)
    requires Update(db, id, EditedSettlement(db.expenses[id], input), token) == Success(n)
    ensures Corrected(db, n, id, input, db.expenses[id].paidBy, o)
  {
    var orig := db.expenses[id];
    var p, e := orig.paidBy, EditedSettlement(orig, input);
    OtherPartyIff(orig, o);
    TwoRowsPay(p, o, input.amount, orig.currency, input.group, e.date);
    EditMoves(db, id, e, token, n, None, PairKey("", 0, 0), "", 0);
    forall sc, cur, u
      ensures Net(n.expenses, sc, cur, u) == Net(db.expenses, sc, cur, u)
        + (PayNet(p, o, input.amount, input.group, orig.currency, sc, cur, u)
           - PayNet(p, o, PartOf(orig.parts, p), orig.group, orig.currency, sc, cur, u))
    {
      EditMoves(db, id, e, token, n, sc, PairKey("", 0, 0), cur, u);
      TwoRowNet(e, p, o, sc, cur, u);
      TwoRowNet(orig, p, o, sc, cur, u);
    }
  }

  /** Deleting a conversion takes both legs' parts out of every net. */
  lemma BothLegsOut(db: Db, id: Id, t: Id, token: nat, n: Db, sc: Option<GroupId>, cur: string, u: UserId)
    requires ValidDb(db) && SoftDeleteConversion(db, id, token) == Success(n) && IsConversion(db.expenses[id])
    requires Partner(db.expenses, id, t)
    ensures Net(n.expenses, sc, cur, u)
         == Net(db.expenses, sc, cur, u) - LiveNet(db.expenses[id], sc, cur, u) - LiveNet(db.expenses[t], sc, cur, u)
  {
    PartnerTakesOut(db, id, t, token, sc, PairKey("", 0, 0), cur, u);
    BothLegs(db, id, token);
    ContributionIs(db.expenses[id], sc, PairKey("", 0, 0), cur, u);
    ContributionIs(db.expenses[t], sc, PairKey("", 0, 0), cur, u);
  }
}
