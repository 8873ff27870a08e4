/** The stored rows one reconciliation run reads and rewrites, and the constraints on them. */
module Tables {
  import opened Options
  import opened Sorting
  import opened Indexing
  import opened Texts
  import opened Planes
  import opened Snapshots
  import opened Matching
  import opened Diffing

  datatype MatchState = Proposed | Confirmed | Rejected | Invalidated

  /** A match is about its anchor: a declared natural key and the provider's own identifier. */
  datatype MatchRow = MatchRow(
    pk: nat, anchor: NaturalKey, providerId: Option<Text>, strategy: Strategy, state: MatchState,
    invalidatedAt: Option<int>)

  datatype Finding =
    | OnField(field: Text, declared: PlaneValue, discovered: PlaneValue, outcome: FieldOutcome)
    | OnOrphan(kind: OrphanKind)

  datatype DiscrepancyState = Open | Resolved

  datatype DiscrepancyRow = DiscrepancyRow(pk: nat, key: NaturalKey, finding: Finding, state: DiscrepancyState)

  datatype DeclaredRow = DeclaredRow(revision: nat, snapshot: Snapshot)

  datatype DiscoveredRow = DiscoveredRow(snapshot: Snapshot, absent: bool)

  predicate IsActive(r: MatchRow) { r.state.Proposed? || r.state.Confirmed? }
  predicate IsHuman(r: MatchRow) { r.state.Confirmed? || r.state.Rejected? }
  predicate IsRejection(r: MatchRow) { r.state.Rejected? }
  predicate HoldsProvider(r: MatchRow) { IsActive(r) && r.providerId.Some? }

  function PkOf(r: MatchRow): nat { r.pk }
  function AnchorOf(r: MatchRow): NaturalKey { r.anchor }
  function HolderOf(r: MatchRow): (Text, Option<Text>) { (r.anchor.tenant, r.providerId) }
  function PairingOfRow(r: MatchRow): (NaturalKey, Option<Text>) { (r.anchor, r.providerId) }

  /** The unique indexes and the check constraint of the match table, and where its keys come from. */
  ghost predicate Indexed(rows: seq<MatchRow>, next: nat) {
    && NoRepeats(Keys(rows, PkOf))
    && (forall r :: r in rows ==> r.pk < next)
    && NoRepeats(Keys(Filter(rows, IsActive), AnchorOf))
    && NoRepeats(Keys(Filter(rows, HoldsProvider), HolderOf))
    && NoRepeats(Keys(Filter(rows, IsRejection), PairingOfRow))
    && (forall r :: r in rows && IsHuman(r) ==> r.providerId.Some?)
  }

  function DiscrepancyPk(r: DiscrepancyRow): nat { r.pk }

  /** The primary key of the discrepancy table. */
  ghost predicate Numbered(rows: seq<DiscrepancyRow>, next: nat) {
    NoRepeats(Keys(rows, DiscrepancyPk)) && forall r :: r in rows ==> r.pk < next
  }

  /** An active row is refused when an active row of the table already holds one of its sides. */
  predicate Collides(rows: seq<MatchRow>, row: MatchRow) {
    exists r :: r in rows && IsActive(r) &&
                (r.anchor == row.anchor || (row.providerId.Some? && HolderOf(r) == HolderOf(row)))
  }

  /** The table refuses a new proposal exactly when accepting it would break an index. */
  lemma {:induction false} RefusalProtectsIndexes(rows: seq<MatchRow>, next: nat, row: MatchRow)
    requires Indexed(rows, next) && row.pk == next && row.state.Proposed?
    ensures Indexed(rows + [row], next + 1) <==> !Collides(rows, row)
  {
    KeysAppend(rows, row, PkOf);
    NoRepeatsAppend(Keys(rows, PkOf), row.pk);
    KeyedBy(rows, PkOf, row.pk);
    AppendKeepsNoRepeats(rows, row, IsActive, AnchorOf);
    AppendKeepsNoRepeats(rows, row, HoldsProvider, HolderOf);
    AppendKeepsNoRepeats(rows, row, IsRejection, PairingOfRow);
    if Collides(rows, row) {
      var r :| r in rows && IsActive(r) && (r.anchor == row.anchor || (row.providerId.Some? && HolderOf(r) == HolderOf(row)));
      if row.providerId.Some? && HolderOf(r) == HolderOf(row) { assert HoldsProvider(r); }
    }
  }
}
