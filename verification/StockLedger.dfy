/** Stock on hand, summed from the ledger of movements: the list handler of `src/routes/parts.ts`. */
module StockLedger {
  import opened Wrappers

  type PartId = nat
  type PlaceId = nat

  /** Stock leaves somewhere, arrives somewhere, or both; the quantity is a magnitude. */
  datatype Movement = Movement(part: PartId, from: Option<PlaceId>, to: Option<PlaceId>, qty: int)

  type Balance = map<(PartId, PlaceId), int>

  function QtyAt(balance: Balance, part: PartId, place: PlaceId): int {
    if (part, place) in balance then balance[(part, place)] else 0
  }

  function Arrivals(moves: seq<Movement>, part: PartId, place: PlaceId): int {
    if moves == [] then 0
    else
      var m := moves[|moves| - 1];
      Arrivals(moves[..|moves| - 1], part, place) + if m.part == part && m.to == Some(place) then m.qty else 0
  }

  function Departures(moves: seq<Movement>, part: PartId, place: PlaceId): int {
    if moves == [] then 0
    else
      var m := moves[|moves| - 1];
      Departures(moves[..|moves| - 1], part, place) + if m.part == part && m.from == Some(place) then m.qty else 0
  }

  /** The loop over the ledger: for every part and place the balance is what arrived less what left. */
  method Balances(moves: seq<Movement>) returns (balance: Balance)
    ensures forall part, place ::
      QtyAt(balance, part, place) == Arrivals(moves, part, place) - Departures(moves, part, place)
  {
    balance := map[];
    for k := 0 to |moves|
      invariant forall part, place ::
                  QtyAt(balance, part, place) == Arrivals(moves[..k], part, place) - Departures(moves[..k], part, place)
    {
      assert moves[..k + 1][..k] == moves[..k];
      var move := moves[k];
      if move.to.Some? {
        var key := (move.part, move.to.value);
        balance := balance[key := QtyAt(balance, move.part, move.to.value) + move.qty];
      }
      if move.from.Some? {
        var key := (move.part, move.from.value);
        balance := balance[key := QtyAt(balance, move.part, move.from.value) - move.qty];
      }
    }
    assert moves[..|moves|] == moves;
  }

  /** `onHandOf`: the sum over the places listed. */
  function OnHandOf(balance: Balance, part: PartId, places: seq<PlaceId>): int {
    if places == [] then 0
    else OnHandOf(balance, part, places[..|places| - 1]) + QtyAt(balance, part, places[|places| - 1])
  }

  ghost predicate Distinct(places: seq<PlaceId>) {
    forall i, j | 0 <= i < j < |places| :: places[i] != places[j]
  }

  predicate Inside(o: Option<PlaceId>, places: seq<PlaceId>) {
    o.Some? && o.value in places
  }

  /** What came into the places from outside them. */
  function Entered(moves: seq<Movement>, part: PartId, places: seq<PlaceId>): int {
    if moves == [] then 0
    else
      var m := moves[|moves| - 1];
      Entered(moves[..|moves| - 1], part, places)
      + if m.part == part && Inside(m.to, places) && !Inside(m.from, places) then m.qty else 0
  }

  /** What went out of them. */
  function Left(moves: seq<Movement>, part: PartId, places: seq<PlaceId>): int {
    if moves == [] then 0
    else
      var m := moves[|moves| - 1];
      Left(moves[..|moves| - 1], part, places)
      + if m.part == part && Inside(m.from, places) && !Inside(m.to, places) then m.qty else 0
  }

  /** The ledger's own account of the places. */
  function NetOf(moves: seq<Movement>, part: PartId, places: seq<PlaceId>): int {
    if places == [] then 0
    else
      var last := places[|places| - 1];
      NetOf(moves, part, places[..|places| - 1]) + Arrivals(moves, part, last) - Departures(moves, part, last)
  }

  lemma {:induction false} NetOfNothing(part: PartId, places: seq<PlaceId>)
    ensures NetOf([], part, places) == 0
  {
    if places != [] {
      NetOfNothing(part, places[..|places| - 1]);
    }
  }

  /** One movement changes the account by its quantity for an end inside, and by nothing when both are. */
  lemma {:induction false} NetOfOneMore(moves: seq<Movement>, m: Movement, part: PartId, places: seq<PlaceId>)
    requires Distinct(places)
    ensures NetOf(moves + [m], part, places) == NetOf(moves, part, places)
              + (if m.part == part && Inside(m.to, places) then m.qty else 0)
              - (if m.part == part && Inside(m.from, places) then m.qty else 0)
  {
    assert (moves + [m])[..|moves|] == moves;
    if places != [] {
      var rest, last := places[..|places| - 1], places[|places| - 1];
      NetOfOneMore(moves, m, part, rest);
      assert places == rest + [last];
      assert last !in rest;
      assert forall o: Option<PlaceId> :: Inside(o, places) <==> Inside(o, rest) || o == Some(last);
    }
  }

  /**
    On hand over any places, each listed once, is what crossed into them less what crossed out: moves among
    them cancel, whatever the rest of the ledger did.
   */
  lemma {:induction false} OnlyCrossingsCount(moves: seq<Movement>, part: PartId, places: seq<PlaceId>)
    requires Distinct(places)
    ensures NetOf(moves, part, places) == Entered(moves, part, places) - Left(moves, part, places)
  {
    if moves == [] {
      NetOfNothing(part, places);
    } else {
      var rest, m := moves[..|moves| - 1], moves[|moves| - 1];
      OnlyCrossingsCount(rest, part, places);
      NetOfOneMore(rest, m, part, places);
      assert moves == rest + [m];
    }
  }

  lemma {:induction false} OnHandIsNet(balance: Balance, moves: seq<Movement>, part: PartId, places: seq<PlaceId>)
    requires forall p, place :: QtyAt(balance, p, place) == Arrivals(moves, p, place) - Departures(moves, p, place)
    ensures OnHandOf(balance, part, places) == NetOf(moves, part, places)
  {
    if places != [] {
      OnHandIsNet(balance, moves, part, places[..|places| - 1]);
    }
  }

  /** Receipts: stock that arrives from nowhere; consumption: stock that leaves for nowhere. */
  function Received(moves: seq<Movement>, part: PartId): int {
    if moves == [] then 0
    else
      var m := moves[|moves| - 1];
      Received(moves[..|moves| - 1], part) + if m.part == part && m.to.Some? && m.from.None? then m.qty else 0
  }

  function Consumed(moves: seq<Movement>, part: PartId): int {
    if moves == [] then 0
    else
      var m := moves[|moves| - 1];
      Consumed(moves[..|moves| - 1], part) + if m.part == part && m.from.Some? && m.to.None? then m.qty else 0
  }

  /** The list holds every place a movement of the part names. */
  ghost predicate Covers(places: seq<PlaceId>, moves: seq<Movement>, part: PartId) {
    forall i | 0 <= i < |moves| && moves[i].part == part ::
      (moves[i].to.Some? ==> moves[i].to.value in places) && (moves[i].from.Some? ==> moves[i].from.value in places)
  }

  lemma {:induction false} NothingCrossesTheWhole(moves: seq<Movement>, part: PartId, places: seq<PlaceId>)
    requires Covers(places, moves, part)
    ensures Entered(moves, part, places) == Received(moves, part) && Left(moves, part, places) == Consumed(moves, part)
  {
    if moves != [] {
      var l := |moves| - 1;
      assert forall i | 0 <= i < l :: moves[..l][i] == moves[i];
      NothingCrossesTheWhole(moves[..l], part, places);
    }
  }

  /** Over all places, on hand is what was received less what was consumed: transfers cancel. */
  lemma StockIsConserved(balance: Balance, moves: seq<Movement>, part: PartId, places: seq<PlaceId>)
    requires forall p, place :: QtyAt(balance, p, place) == Arrivals(moves, p, place) - Departures(moves, p, place)
    requires Distinct(places)
    ensures OnHandOf(balance, part, places) == Entered(moves, part, places) - Left(moves, part, places)
    ensures Covers(places, moves, part) ==>
      OnHandOf(balance, part, places) == Received(moves, part) - Consumed(moves, part)
  {
    OnHandIsNet(balance, moves, part, places);
    OnlyCrossingsCount(moves, part, places);
    if Covers(places, moves, part) {
      NothingCrossesTheWhole(moves, part, places);
    }
  }

  /** A cell that shows less than nothing. */
  datatype Exception = Exception(part: PartId, place: PlaceId, qty: int)

  function CellAt(balance: Balance, places: seq<PlaceId>, parts: seq<PartId>, i: nat, j: nat): Exception
    requires i < |places| && j < |parts|
  {
    Exception(parts[j], places[i], QtyAt(balance, parts[j], places[i]))
  }

  /** Every active cell below zero once, place by place and within a place in the order of the catalogue. */
  ghost predicate NegativesInOrder(balance: Balance, places: seq<PlaceId>, parts: seq<PartId>, found: seq<Exception>,
                                   at: seq<(nat, nat)>) {
    && |at| == |found|
    && (forall k | 0 <= k < |at| ::
          && at[k].0 < |places| && at[k].1 < |parts|
          && found[k] == CellAt(balance, places, parts, at[k].0, at[k].1) && found[k].qty < 0)
    && (forall k, l | 0 <= k < l < |at| :: Earlier(at[k], at[l]))
  }

  predicate Earlier(a: (nat, nat), b: (nat, nat)) {
    a.0 < b.0 || (a.0 == b.0 && a.1 < b.1)
  }

  /** Every cell below zero that comes before the cell of place `i` and part `j` is among those found. */
  ghost predicate FoundBefore(balance: Balance, places: seq<PlaceId>, parts: seq<PartId>, at: seq<(nat, nat)>,
                              i: nat, j: nat) {
    && (forall k | 0 <= k < |at| :: Earlier(at[k], (i, j)))
    && (forall a: nat, b: nat | Earlier((a, b), (i, j)) && a < |places| && b < |parts| ::
          QtyAt(balance, parts[b], places[a]) < 0 ==> (a, b) in at)
  }

  lemma OneMoreNegative(balance: Balance, places: seq<PlaceId>, parts: seq<PartId>, found: seq<Exception>,
                        at: seq<(nat, nat)>,
                        i: nat, j: nat)
    requires i < |places| && j < |parts| && QtyAt(balance, parts[j], places[i]) < 0
    requires NegativesInOrder(balance, places, parts, found, at) && FoundBefore(balance, places, parts, at, i, j)
    ensures NegativesInOrder(balance, places, parts,
                             found + [CellAt(balance, places, parts, i, j)], at + [(i, j)])
    ensures FoundBefore(balance, places, parts, at + [(i, j)], i, j + 1)
  {
    hide QtyAt;
    assert forall c :: c in at ==> c in at + [(i, j)];
    assert (at + [(i, j)])[|at|] == (i, j);
  }

  lemma NoNegativeHere(balance: Balance, places: seq<PlaceId>, parts: seq<PartId>, at: seq<(nat, nat)>, i: nat, j: nat)
    requires i < |places| && j < |parts| && QtyAt(balance, parts[j], places[i]) >= 0
    requires FoundBefore(balance, places, parts, at, i, j)
    ensures FoundBefore(balance, places, parts, at, i, j + 1)
  {
    hide QtyAt;
  }

  lemma NextPlace(balance: Balance, places: seq<PlaceId>, parts: seq<PartId>, at: seq<(nat, nat)>, i: nat)
    requires FoundBefore(balance, places, parts, at, i, |parts|)
    ensures FoundBefore(balance, places, parts, at, i + 1, 0)
  {
    hide QtyAt;
  }

  method NegativeOnHand(balance: Balance, places: seq<PlaceId>, parts: seq<PartId>)
    returns (found: seq<Exception>, ghost at: seq<(nat, nat)>)
    ensures NegativesInOrder(balance, places, parts, found, at)
    ensures forall i: nat, j: nat | i < |places| && j < |parts| && QtyAt(balance, parts[j], places[i]) < 0 ::
      (i, j) in at
    ensures forall e: Exception :: e in found <==>
              e.place in places && e.part in parts && e.qty == QtyAt(balance, e.part, e.place) && e.qty < 0
  {
    found, at := [], [];
    assert NegativesInOrder(balance, places, parts, found, at) && FoundBefore(balance, places, parts, at, 0, 0);
    for i := 0 to |places|
      invariant NegativesInOrder(balance, places, parts, found, at) && FoundBefore(balance, places, parts, at, i, 0)
    {
      hide NegativesInOrder, FoundBefore, QtyAt;
      for j := 0 to |parts|
        invariant NegativesInOrder(balance, places, parts, found, at) && FoundBefore(balance, places, parts, at, i, j)
      {
        var qty := QtyAt(balance, parts[j], places[i]);
        if qty >= 0 {
          NoNegativeHere(balance, places, parts, at, i, j);
          continue;
        }
        OneMoreNegative(balance, places, parts, found, at, i, j);
        found := found + [Exception(parts[j], places[i], qty)];
        at := at + [(i, j)];
      }
      NextPlace(balance, places, parts, at, i);
    }
    assert forall i: nat, j: nat | i < |places| && j < |parts| && QtyAt(balance, parts[j], places[i]) < 0 ::
      (i, j) in at;
    FoundAreTheNegatives(balance, places, parts, found, at);
  }

  lemma FoundAreTheNegatives(balance: Balance, places: seq<PlaceId>, parts: seq<PartId>, found: seq<Exception>,
                             at: seq<(nat, nat)>)
    requires NegativesInOrder(balance, places, parts, found, at)
    requires forall i: nat, j: nat | i < |places| && j < |parts| && QtyAt(balance, parts[j], places[i]) < 0 ::
      (i, j) in at
    ensures forall e: Exception :: e in found <==>
              e.place in places && e.part in parts && e.qty == QtyAt(balance, e.part, e.place) && e.qty < 0
  {
    forall e: Exception | e.place in places && e.part in parts && e.qty == QtyAt(balance, e.part, e.place) && e.qty < 0
      ensures e in found
    {
      var i: nat :| i < |places| && places[i] == e.place;
      var j: nat :| j < |parts| && parts[j] == e.part;
      assert (i, j) in at;
      var k :| 0 <= k < |at| && at[k] == (i, j);
      assert found[k] == e;
    }
  }
}
