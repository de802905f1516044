/** Kitchen tickets: the items of one fire are split into one ticket per station. */
module StationTickets {
  import opened Common

  datatype Item = Item(product: int, station: int, qty: int, note: string)

  /** Firing names a table "T5", moving renames it "5": both forms occur. */
  datatype Label = NoTable | FireLabel(at: int) | MoveLabel(at: int) {
    function Table(): Option<int> {
      if NoTable? then None else Some(at)
    }
  }

  datatype Ticket = Ticket(order: nat, fireUuid: string, station: int, course: nat, seat: Label, items: seq<Item>)

  // ---- what the grouping loop computes --------------------------------------------------

  /** The stations of the items to cook, in order of first appearance. */
  function Stations(items: seq<Item>): seq<int> {
    if items == [] then []
    else
      var last := items[|items| - 1];
      var front := Stations(items[..|items| - 1]);
      if last.qty > 0 && last.station !in front then front + [last.station] else front
  }

  /** The items one station cooks, in the order they were keyed. */
  function AtStation(items: seq<Item>, station: int): seq<Item> {
    if items == [] then []
    else
      var last := items[|items| - 1];
      var front := AtStation(items[..|items| - 1], station);
      if last.qty > 0 && last.station == station then front + [last] else front
  }

  function ToCook(items: seq<Item>): seq<Item> {
    if items == [] then []
    else
      var last := items[|items| - 1];
      if last.qty > 0 then ToCook(items[..|items| - 1]) + [last] else ToCook(items[..|items| - 1])
  }

  function TicketsFor(items: seq<Item>, head: Ticket): seq<Ticket> {
    var stations := Stations(items);
    seq(|stations|, i requires 0 <= i < |stations| =>
      head.(station := stations[i], items := AtStation(items, stations[i])))
  }

  method MakeTickets(items: seq<Item>, head: Ticket) returns (tickets: seq<Ticket>)
    ensures tickets == TicketsFor(items, head)
  {
    var stations: seq<int>, byStation: map<int, seq<Item>> := [], map[];
    for n := 0 to |items|
      invariant stations == Stations(items[..n])
      invariant forall st :: st in stations <==> st in byStation
      invariant forall st :: st in byStation ==> byStation[st] == AtStation(items[..n], st)
      invariant forall st :: st !in byStation ==> AtStation(items[..n], st) == []
    {
      var item := items[n];
      assert items[..n + 1][..n] == items[..n] && items[..n + 1][n] == item;
      if item.qty > 0 {
        if item.station !in byStation {
          stations := stations + [item.station];
          byStation := byStation[item.station := []];
        }
        byStation := byStation[item.station := byStation[item.station] + [item]];
      }
    }
    assert items[..|items|] == items;
    tickets := [];
    for k := 0 to |stations|
      invariant tickets == TicketsFor(items, head)[..k]
    {
      tickets := tickets + [head.(station := stations[k], items := byStation[stations[k]])];
    }
  }

  // ---- what the split means ----------------------------------------------------------------

  lemma {:induction false} StationsAreThoseWithWork(items: seq<Item>, station: int)
    ensures station in Stations(items) <==> AtStation(items, station) != []
  {
    if items != [] { StationsAreThoseWithWork(items[..|items| - 1], station); }
  }

  lemma {:induction false} StationsDistinct(items: seq<Item>)
    ensures forall i, j :: 0 <= i < j < |Stations(items)| ==> Stations(items)[i] != Stations(items)[j]
  {
    if items != [] { StationsDistinct(items[..|items| - 1]); }
  }

  function Cooked(tickets: seq<Ticket>): multiset<Item> {
    if tickets == [] then multiset{}
    else Cooked(tickets[..|tickets| - 1]) + multiset(tickets[|tickets| - 1].items)
  }

  function Sorted(items: seq<Item>, stations: seq<int>): multiset<Item> {
    if stations == [] then multiset{}
    else Sorted(items, stations[..|stations| - 1]) + multiset(AtStation(items, stations[|stations| - 1]))
  }

  lemma NothingCooked(items: seq<Item>)
    ensures Cooked([]) == multiset{} && Sorted(items, []) == multiset{}
  {
  }

  lemma CookedLast(ts: seq<Ticket>, t: Ticket)
    ensures Cooked(ts + [t]) == Cooked(ts) + multiset(t.items)
  {
    assert (ts + [t])[..|ts|] == ts;
  }

  lemma SortedLast(items: seq<Item>, stations: seq<int>, station: int)
    ensures Sorted(items, stations + [station]) == Sorted(items, stations) + multiset(AtStation(items, station))
  {
    assert (stations + [station])[..|stations|] == stations;
  }

  lemma {:induction false} CookedIsSorted(items: seq<Item>, head: Ticket, n: nat)
    requires n <= |Stations(items)|
    ensures Cooked(TicketsFor(items, head)[..n]) == Sorted(items, Stations(items)[..n])
  {
    hide AtStation, Stations, Cooked, Sorted;
    var ts, sts := TicketsFor(items, head), Stations(items);
    if n == 0 {
      NothingCooked(items);
      assert ts[..0] == [] && sts[..0] == [];
    } else {
      assert ts[..n] == ts[..n - 1] + [ts[n - 1]] && sts[..n] == sts[..n - 1] + [sts[n - 1]];
      CookedIsSorted(items, head, n - 1);
      CookedLast(ts[..n - 1], ts[n - 1]);
      SortedLast(items, sts[..n - 1], sts[n - 1]);
    }
  }

  /** One more item goes to its own station only. */
  lemma {:induction false} SortedAdds(items: seq<Item>, item: Item, stations: seq<int>)
    requires forall i, j :: 0 <= i < j < |stations| ==> stations[i] != stations[j]
    ensures Sorted(items + [item], stations)
         == Sorted(items, stations) + (if item.qty > 0 && item.station in stations then multiset{item} else multiset{})
  {
    if stations != [] {
      var n := |stations| - 1;
      assert stations == stations[..n] + [stations[n]];
      assert (items + [item])[..|items|] == items;
      SortedAdds(items, item, stations[..n]);
    }
  }

  lemma SortedNewStation(items: seq<Item>, stations: seq<int>, station: int)
    requires AtStation(items, station) == []
    ensures Sorted(items, stations + [station]) == Sorted(items, stations)
  {
    assert (stations + [station])[..|stations|] == stations;
  }

  lemma {:induction false} SortedIsToCook(items: seq<Item>)
    ensures Sorted(items, Stations(items)) == multiset(ToCook(items))
  {
    if items != [] {
      var front, last := items[..|items| - 1], items[|items| - 1];
      assert items == front + [last];
      SortedIsToCook(front);
      StationsDistinct(items);
      SortedAdds(front, last, Stations(items));
      if Stations(items) != Stations(front) {
        StationsAreThoseWithWork(front, last.station);
        SortedNewStation(front, Stations(front), last.station);
      }
    }
  }

  /** Every positive item is cooked exactly once. */
  lemma NothingLostOrDoubled(items: seq<Item>, head: Ticket)
    ensures Cooked(TicketsFor(items, head)) == multiset(ToCook(items))
  {
    var ts := TicketsFor(items, head);
    CookedIsSorted(items, head, |ts|);
    assert ts[..|ts|] == ts && Stations(items)[..|ts|] == Stations(items);
    SortedIsToCook(items);
  }

  /** No station gets two tickets of one fire, no ticket is empty, and each holds
      exactly its station's items in the order they were keyed. */
  lemma OneTicketPerStation(items: seq<Item>, head: Ticket)
    ensures var ts := TicketsFor(items, head);
      && (forall i :: 0 <= i < |ts| ==> ts[i].items != [] && ts[i].items == AtStation(items, ts[i].station))
      && (forall i, j :: 0 <= i < j < |ts| ==> ts[i].station != ts[j].station)
  {
    hide AtStation, Stations;
    StationsDistinct(items);
    var ts := TicketsFor(items, head);
    forall i | 0 <= i < |ts| ensures ts[i].items != [] {
      StationsAreThoseWithWork(items, Stations(items)[i]);
    }
  }

  lemma {:induction false} SomethingToCook(items: seq<Item>)
    ensures ToCook(items) == [] <==> Stations(items) == []
    ensures ToCook(items) == [] <==> forall i :: 0 <= i < |items| ==> items[i].qty <= 0
  {
    if items != [] {
      var n := |items| - 1;
      SomethingToCook(items[..n]);
      assert forall i :: 0 <= i < n ==> items[..n][i] == items[i];
    }
  }
}
