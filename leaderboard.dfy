/** The kill table: player nickname to number of kills, reset from the room's player list
    when a match starts and ranked when it ends. */
module Leaderboard {
  import opened Wrappers

  /** One row of the table as the ranking sees it. */
  datatype Entry = Entry(name: string, kills: int)

  /** The two rows shown when a match ends, under the labels the result panel gives them. */
  datatype Standing = Standing(winner: Entry, second: Entry)

  /** The table after every name of the player list was written with count 0, whether it
      was present or not; names outside the list keep their counts. */
  function ResetRoster(table: map<string, int>, playerList: seq<string>): (r: map<string, int>)
    ensures forall n :: n in r <==> n in table || n in playerList
    ensures forall n :: n in playerList ==> r[n] == 0
    ensures forall n :: n in table && n !in playerList ==> r[n] == table[n]
  {
    table + map n | n in playerList :: 0
  }

  /** Writing one more name with count 0 extends the reset by that name. */
  lemma ResetRosterSnoc(table: map<string, int>, playerList: seq<string>, name: string)
    ensures ResetRoster(table, playerList + [name]) == ResetRoster(table, playerList)[name := 0]
  {
  }

  /** `order` lists every key of `table` exactly once: the order in which the table is enumerated. */
  ghost predicate IsEnumeration(order: seq<string>, table: map<string, int>)
  {
    && (forall i, j :: 0 <= i < j < |order| ==> order[i] != order[j])
    && (forall n :: n in table <==> n in order)
  }

  /** An enumeration lists only keys of the table, and exactly as many as the table has. */
  lemma {:induction false} EnumerationSize(order: seq<string>, table: map<string, int>)
    requires IsEnumeration(order, table)
    ensures forall i :: 0 <= i < |order| ==> order[i] in table
    ensures |order| == |table|
  {
    KeysEnumerationSize(order, table.Keys);
  }

  lemma {:induction false} KeysEnumerationSize(order: seq<string>, keys: set<string>)
    requires forall i, j :: 0 <= i < j < |order| ==> order[i] != order[j]
    requires forall n :: n in keys <==> n in order
    ensures |order| == |keys|
  {
    if order != [] {
      var rest := keys - {order[0]};
      forall n ensures n in rest <==> n in order[1..] {
        if n in order[1..] {
          var j :| 1 <= j < |order| && order[j] == n;
          assert order[0] != order[j];
        }
      }
      KeysEnumerationSize(order[1..], rest);
    }
  }

  /** The table's rows in the order given. */
  function Entries(table: map<string, int>, order: seq<string>): (r: seq<Entry>)
    requires forall i :: 0 <= i < |order| ==> order[i] in table
    ensures |r| == |order|
    ensures forall i :: 0 <= i < |r| ==> r[i].name == order[i] && r[i].kills == table[order[i]]
  {
    if order == [] then [] else [Entry(order[0], table[order[0]])] + Entries(table, order[1..])
  }

  /** Ascending by kill count. */
  ghost predicate Ascending(s: seq<Entry>)
  {
    forall i, j :: 0 <= i < j < |s| ==> s[i].kills <= s[j].kills
  }

  /** A row with no more kills than any row of an ascending order can go in front of it. */
  lemma AscendingCons(x: Entry, s: seq<Entry>)
    requires Ascending(s)
    requires forall y :: y in s ==> x.kills <= y.kills
    ensures Ascending([x] + s)
  {
  }

  /** Places `e` before the first row with at least as many kills, as a stable ascending sort
      places the earlier of two rows. */
  function Insert(e: Entry, sorted: seq<Entry>): (r: seq<Entry>)
    requires Ascending(sorted)
    ensures Ascending(r)
    ensures multiset(r) == multiset(sorted) + multiset{e}
    ensures forall x :: x in r ==> x == e || x in sorted
  {
    if sorted == [] || e.kills <= sorted[0].kills then
      AscendingCons(e, sorted);
      [e] + sorted
    else
      var tail := Insert(e, sorted[1..]);
      assert sorted == [sorted[0]] + sorted[1..];
      AscendingCons(sorted[0], tail);
      [sorted[0]] + tail
  }

  /** The table ordered ascending by kill count: a permutation of its rows. */
  function SortByKills(entries: seq<Entry>): (r: seq<Entry>)
    ensures Ascending(r)
    ensures multiset(r) == multiset(entries)
  {
    if entries == [] then []
    else
      assert entries == [entries[0]] + entries[1..];
      Insert(entries[0], SortByKills(entries[1..]))
  }

  /** The result panel: element 1 of the ascending order is labelled the winner and element 0
      the second; with fewer than two rows nothing is shown. */
  function Results(entries: seq<Entry>): (r: Option<Standing>)
    ensures r.None? <==> |entries| < 2
    ensures r.Some? ==> multiset{r.value.winner, r.value.second} <= multiset(entries)
    ensures r.Some? ==> r.value.second.kills <= r.value.winner.kills
    ensures r.Some? ==> forall e :: e in entries ==> r.value.second.kills <= e.kills
    ensures r.Some? ==> forall e :: e in multiset(entries) - multiset{r.value.winner, r.value.second}
                                    ==> r.value.winner.kills <= e.kills
  {
    if |entries| < 2 then None
    else
      var s := SortByKills(entries);
      RankedPick(s);
      Some(Standing(s[1], s[0]))
  }

  /** In an ascending order the first row has the fewest kills and the second row has no more
      kills than any row other than those two. */
  lemma RankedPick(s: seq<Entry>)
    requires Ascending(s) && |s| >= 2
    ensures forall e :: e in multiset(s) ==> s[0].kills <= e.kills
    ensures multiset{s[1], s[0]} <= multiset(s)
    ensures forall e :: e in multiset(s) - multiset{s[1], s[0]} ==> s[1].kills <= e.kills
  {
    var rest := s[2..];
    assert s == [s[0], s[1]] + rest;
    assert multiset(s) == multiset{s[1], s[0]} + multiset(rest);
    forall e: Entry | e in multiset(rest) ensures s[1].kills <= e.kills {
      var j :| 0 <= j < |rest| && rest[j] == e;
      assert s[j + 2] == e;
    }
    forall e: Entry | e in multiset(s) ensures s[0].kills <= e.kills {
      var j :| 0 <= j < |s| && s[j] == e;
    }
  }

  /** With Alice 3, Bob 5 and Carol 1 kills, the panel names Alice the winner and Carol the
      second: the labels go to the two lowest scorers, not to the highest. */
  lemma LowestScorersShown()
    ensures Results([Entry("Alice", 3), Entry("Bob", 5), Entry("Carol", 1)])
            == Some(Standing(Entry("Alice", 3), Entry("Carol", 1)))
  {
  }
}
