/** Who may act: the lookups the services make before they touch the ledger. */
module Access {
  import opened Text
  import opened Simplify
  import opened Ledger
  import opened Runs

  /** The answers of the tables that are not part of the ledger: group membership, who is related
      to whom, the active admins, and who recorded an expense. */
  datatype Access = Access(
    member: (GroupId, UserId) -> bool, related: (UserId, UserId) -> bool, admin: UserId -> bool, addedBy: Id -> UserId)

  /** The actor is part of the transaction: payer, creator or participant. */
  predicate OfTransaction(a: Access, id: Id, e: Expense, actor: UserId) {
    e.paidBy == actor || a.addedBy(id) == actor || actor in Users(e.parts)
  }

  /** Only the admin override lets the actor edit. */
  predicate ViaAdmin(a: Access, id: Id, e: Expense, actor: UserId) {
    !Immutable(e) && !OfTransaction(a, id, e, actor) && a.admin(actor)
  }

  predicate MayEdit(a: Access, id: Id, e: Expense, actor: UserId) {
    !Immutable(e) && (OfTransaction(a, id, e, actor) || a.admin(actor))
  }

  predicate AllMembers(a: Access, g: GroupId, users: set<UserId>) {
    forall u :: u in users ==> a.member(g, u)
  }

  /** Everyone but the owner is related to the owner. */
  predicate AllRelated(a: Access, owner: UserId, users: set<UserId>) {
    forall u :: u in users ==> u == owner || a.related(owner, u)
  }

  /** Where these people's money may go: into a group they all belong to, the acting member
      included, or between people related to the owner. */
  predicate PlaceAllowed(a: Access, target: Option<GroupId>, users: set<UserId>, actor: UserId, owner: UserId) {
    match target
    case Some(g) => AllMembers(a, g, users + {actor})
    case None => AllRelated(a, owner, users)
  }
}
