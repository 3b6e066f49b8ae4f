/** Worked runs of the manager: the match clock and the kill table over a few calls. */
module Scenarios {
  import opened Leaderboard
  import opened Match

  /** A five-unit match ticked one unit at a time is still running after four ticks and
      finishes on the fifth; later ticks change nothing. */
  method ClockScenario()
  {
    var m := new NetworkManager(5);
    m.StartGame([]);
    var t := 0;
    while t < 4
      invariant 0 <= t <= 4
      invariant m.Valid() && m.players == map[]
      invariant m.CurrentPhase() == Running && m.timer == 5 - t
    {
      m.Update(1, []);
      t := t + 1;
    }
    m.Update(1, []);
    assert m.CurrentPhase() == Finished && m.timer == 0;
    m.Update(3, []);
    assert m.CurrentPhase() == Finished && m.timer == 0;
  }

  /** Rosters {a, b} then {b, c} give exactly a, b and c, all at count 0. */
  lemma RosterSyncScenario(a: string, b: string, c: string)
    requires a != b && a != c && b != c
    ensures ResetRoster(ResetRoster(map[], [a, b]), [b, c]) == map[a := 0, b := 0, c := 0]
  {
    var t := ResetRoster(ResetRoster(map[], [a, b]), [b, c]);
    assert t.Keys == {a, b, c};
  }

  /** A later roster that lists b again resets b's kills to 0 while a and c keep theirs. */
  lemma RosterResetScenario(a: string, b: string, c: string)
    requires a != b && a != c && b != c
    ensures var t := ResetRoster(map[a := 2, b := 1, c := 4], [b]);
            t.Keys == {a, b, c} && t[a] == 2 && t[b] == 0 && t[c] == 4
  {
  }

  /** Rosters {A, B} then {B, C}, then a frag for B, give A 0, B 1 and C 0; a frag for a
      name never listed fails and changes nothing. */
  method FragScenario()
  {
    var a, b, c, d := "A", "B", "C", "D";
    assert a[0] != b[0] && a[0] != c[0] && b[0] != c[0];
    assert d[0] != a[0] && d[0] != b[0] && d[0] != c[0];
    var m := new NetworkManager(40);
    m.StartGame([a, b]);
    m.StartGame([b, c]);
    RosterSyncScenario(a, b, c);
    ghost var synced := map[a := 0, b := 0, c := 0];
    assert m.players == synced;
    var found := m.AddFrag(b);
    assert found && m.players == synced[b := 1];
    found := m.AddFrag(d);
    assert !found && m.players == synced[b := 1];
  }
}
