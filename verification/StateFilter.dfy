/**
 BeaconStateFilter: the WHERE clauses it adds to a query, and the rows those let through when
 the states are counted and listed page by page.
 */
module StateFilter {
  import opened Timestamps
  import opened Wrappers
  import Listing

  datatype Row = Row(
    id: string, node: string, fetchedAt: micros, slot: int, epoch: int, stateRoot: string,
    nodeVersion: string, location: string, network: string, beaconImplementation: string)

  datatype Filter = Filter(
    id: Option<string>, node: Option<string>, before: Option<nanos>, after: Option<nanos>,
    slot: Option<int>, epoch: Option<int>, stateRoot: Option<string>, nodeVersion: Option<string>,
    location: Option<string>, network: Option<string>, beaconImplementation: Option<string>)

  datatype Value = Number(n: int) | Text(s: string)

  /** The columns a filter can compare for equality. */
  datatype Column =
    Id | Node | Slot | Epoch | StateRoot | NodeVersion | Location | Network | BeaconImplementation

  /** A WHERE clause; the bounds compare fetched_at with a printed time. */
  datatype Clause = Equal(column: Column, value: Value) | FetchedAtMost(text: string) | FetchedAtLeast(text: string)

  function Cell(row: Row, column: Column): Value {
    match column
    case Id => Text(row.id)
    case Node => Text(row.node)
    case Slot => Number(row.slot)
    case Epoch => Number(row.epoch)
    case StateRoot => Text(row.stateRoot)
    case NodeVersion => Text(row.nodeVersion)
    case Location => Text(row.location)
    case Network => Text(row.network)
    case BeaconImplementation => Text(row.beaconImplementation)
  }

  predicate Holds(row: Row, clause: Clause) {
    match clause
    case Equal(column, value) => Cell(row, column) == value
    case FetchedAtMost(text) => AtMost(Format(row.fetchedAt), text)
    case FetchedAtLeast(text) => AtMost(text, Format(row.fetchedAt))
  }

  predicate AllHold(row: Row, clauses: seq<Clause>) {
    forall i :: 0 <= i < |clauses| ==> Holds(row, clauses[i])
  }

  /** What a filter asks of a row, field by field. */
  predicate Wants<T(==)>(wanted: Option<T>, actual: T) {
    wanted.Some? ==> wanted.value == actual
  }

  predicate FieldsMatch(f: Filter, row: Row) {
    && Wants(f.id, row.id)
    && Wants(f.node, row.node)
    && Wants(f.slot, row.slot)
    && Wants(f.epoch, row.epoch)
    && Wants(f.stateRoot, row.stateRoot)
    && Wants(f.nodeVersion, row.nodeVersion)
    && Wants(f.location, row.location)
    && Wants(f.network, row.network)
    && Wants(f.beaconImplementation, row.beaconImplementation)
  }

  function FetchedNanos(row: Row): nanos {
    row.fetchedAt * NANOS_PER_MICRO
  }

  predicate InWindow(f: Filter, row: Row) {
    && (f.before.Some? ==> FetchedNanos(row) <= TruncateToSecond(f.before.value))
    && (f.after.Some? ==> TruncateToSecond(f.after.value) <= FetchedNanos(row))
  }

  function WhereText(query: seq<Clause>, column: Column, wanted: Option<string>): seq<Clause> {
    if wanted.Some? then query + [Equal(column, Text(wanted.value))] else query
  }

  function WhereNumber(query: seq<Clause>, column: Column, wanted: Option<int>): seq<Clause> {
    if wanted.Some? then query + [Equal(column, Number(wanted.value))] else query
  }

  function WhereBefore(query: seq<Clause>, before: Option<nanos>): seq<Clause> {
    if before.Some? then query + [FetchedAtMost(TimestampFormatForDB(before.value))] else query
  }

  function WhereAfter(query: seq<Clause>, after: Option<nanos>): seq<Clause> {
    if after.Some? then query + [FetchedAtLeast(TimestampFormatForDB(after.value))] else query
  }

  function ApplyIdentity(f: Filter): seq<Clause> {
    WhereAfter(WhereBefore(WhereText(WhereText([], Id, f.id), Node, f.node), f.before), f.after)
  }

  function ApplyState(query: seq<Clause>, f: Filter): seq<Clause> {
    WhereText(WhereNumber(WhereNumber(query, Slot, f.slot), Epoch, f.epoch), StateRoot, f.stateRoot)
  }

  function ApplySource(query: seq<Clause>, f: Filter): seq<Clause> {
    var query := WhereText(WhereText(query, NodeVersion, f.nodeVersion), Location, f.location);
    WhereText(WhereText(query, Network, f.network), BeaconImplementation, f.beaconImplementation)
  }

  /** The whole WHERE part of a count or a listing, clause after clause in the order of the fields. */
  function ApplyToQuery(f: Filter): seq<Clause> {
    ApplySource(ApplyState(ApplyIdentity(f), f), f)
  }

  predicate Admits(f: Filter, row: Row) {
    AllHold(row, ApplyToQuery(f))
  }

  lemma PushHolds(row: Row, query: seq<Clause>, clause: Clause)
    ensures AllHold(row, query + [clause]) <==> AllHold(row, query) && Holds(row, clause)
  {
    assert (query + [clause])[|query|] == clause;
    assert forall i :: 0 <= i < |query| ==> (query + [clause])[i] == query[i];
  }

  lemma TextHolds(row: Row, query: seq<Clause>, column: Column, wanted: Option<string>)
    ensures AllHold(row, WhereText(query, column, wanted)) <==>
            AllHold(row, query) && (wanted.Some? ==> Cell(row, column) == Text(wanted.value))
  {
    if wanted.Some? {
      PushHolds(row, query, Equal(column, Text(wanted.value)));
    }
  }

  lemma NumberHolds(row: Row, query: seq<Clause>, column: Column, wanted: Option<int>)
    ensures AllHold(row, WhereNumber(query, column, wanted)) <==>
            AllHold(row, query) && (wanted.Some? ==> Cell(row, column) == Number(wanted.value))
  {
    if wanted.Some? {
      PushHolds(row, query, Equal(column, Number(wanted.value)));
    }
  }

  lemma BoundsHold(row: Row, query: seq<Clause>, bound: Option<nanos>)
    ensures AllHold(row, WhereBefore(query, bound)) <==>
            AllHold(row, query) && (bound.Some? ==> FetchedNanos(row) <= TruncateToSecond(bound.value))
    ensures AllHold(row, WhereAfter(query, bound)) <==>
            AllHold(row, query) && (bound.Some? ==> TruncateToSecond(bound.value) <= FetchedNanos(row))
  {
    if bound.Some? {
      PushHolds(row, query, FetchedAtMost(TimestampFormatForDB(bound.value)));
      PushHolds(row, query, FetchedAtLeast(TimestampFormatForDB(bound.value)));
      BoundIsItsSecond(row.fetchedAt, bound.value);
    }
  }

  lemma IdentityHolds(f: Filter, row: Row)
    ensures AllHold(row, ApplyIdentity(f)) <==> Wants(f.id, row.id) && Wants(f.node, row.node) && InWindow(f, row)
  {
    TextHolds(row, [], Id, f.id);
    var query := WhereText([], Id, f.id);
    TextHolds(row, query, Node, f.node);
    query := WhereText(query, Node, f.node);
    BoundsHold(row, query, f.before);
    BoundsHold(row, WhereBefore(query, f.before), f.after);
  }

  lemma StateHolds(query: seq<Clause>, f: Filter, row: Row)
    ensures AllHold(row, ApplyState(query, f)) <==>
            AllHold(row, query) && Wants(f.slot, row.slot) && Wants(f.epoch, row.epoch) && Wants(f.stateRoot, row.stateRoot)
  {
    NumberHolds(row, query, Slot, f.slot);
    var query := WhereNumber(query, Slot, f.slot);
    NumberHolds(row, query, Epoch, f.epoch);
    TextHolds(row, WhereNumber(query, Epoch, f.epoch), StateRoot, f.stateRoot);
  }

  lemma SourceHolds(query: seq<Clause>, f: Filter, row: Row)
    ensures AllHold(row, ApplySource(query, f)) <==>
            && AllHold(row, query)
            && Wants(f.nodeVersion, row.nodeVersion)
            && Wants(f.location, row.location)
            && Wants(f.network, row.network)
            && Wants(f.beaconImplementation, row.beaconImplementation)
  {
    TextHolds(row, query, NodeVersion, f.nodeVersion);
    var first := WhereText(query, NodeVersion, f.nodeVersion);
    TextHolds(row, first, Location, f.location);
    var second := WhereText(first, Location, f.location);
    TextHolds(row, second, Network, f.network);
    TextHolds(row, WhereText(second, Network, f.network), BeaconImplementation, f.beaconImplementation);
  }

  /** The clauses mean the filter: every field set must match its own column, and the bounds hold to the second. */
  lemma ClausesMeanTheFilter(f: Filter, row: Row)
    ensures Admits(f, row) <==> FieldsMatch(f, row) && InWindow(f, row)
  {
    IdentityHolds(f, row);
    StateHolds(ApplyIdentity(f), f, row);
    SourceHolds(ApplyState(ApplyIdentity(f), f), f, row);
  }

  /** Before never lets through a row later than its bound. */
  lemma BeforeNeverAdmitsLater(f: Filter, row: Row)
    requires Admits(f, row) && f.before.Some?
    ensures FetchedNanos(row) <= f.before.value
  {
    ClausesMeanTheFilter(f, row);
  }

  /** After never drops a row at or after its bound: for such rows the clause changes nothing. */
  lemma AfterNeverDrops(f: Filter, row: Row)
    requires f.after.Some? && f.after.value <= FetchedNanos(row)
    ensures Admits(f, row) <==> Admits(f.(after := None), row)
  {
    ClausesMeanTheFilter(f, row);
    ClausesMeanTheFilter(f.(after := None), row);
  }

  /**
   Cutting to the second costs exactly this: a row a Before filter loses is one from the bound's
   own second, and a row an After filter lets through too early is one from the bound's own second.
   */
  lemma CutIsWithinOneSecond(f: Filter, row: Row)
    requires FieldsMatch(f, row)
    ensures f.after.None? && f.before.Some? && FetchedNanos(row) <= f.before.value ==>
              (!Admits(f, row) <==> TruncateToSecond(f.before.value) < FetchedNanos(row))
    ensures f.before.None? && f.after.Some? && FetchedNanos(row) < f.after.value ==>
              (Admits(f, row) <==> TruncateToSecond(f.after.value) <= FetchedNanos(row))
  {
    ClausesMeanTheFilter(f, row);
  }

  /**
   The pages the table component offers for a filtered listing: together they show every state
   that matches the filter as often as the table holds it, nothing else, and count rows in all.
   */
  lemma PagedStatesMatchTheFilter(table: seq<Row>, f: Filter, listing: seq<Row>, perPage: nat, row: Row)
    requires perPage > 0 && Listing.IsListing(table, r => Admits(f, r), listing)
    ensures var count := Listing.CountRows(table, r => Admits(f, r));
            var shown := Listing.AllPages(listing, Listing.TotalPages(count, perPage), perPage);
            && |shown| == count
            && multiset(shown)[row] == if FieldsMatch(f, row) && InWindow(f, row) then multiset(table)[row] else 0
  {
    ClausesMeanTheFilter(f, row);
    Listing.PagesCoverTheCount(table, r => Admits(f, r), listing, perPage);
    Listing.PagesPartitionTheListing(listing, perPage);
    Listing.FilterKeepsMultiplicity(table, r => Admits(f, r), row);
  }
}
