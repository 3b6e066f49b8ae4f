/** The chat log: a first-in-first-out queue that keeps only the most recent messages. */
module ChatLog {

  /** How many messages the log keeps (the `messageCount` constant). */
  const Capacity: nat := 10

  /** What the log should hold after `history` was appended in order: its last
      min(Capacity, |history|) messages, oldest first. */
  function Recent(history: seq<string>): seq<string>
  {
    if |history| <= Capacity then history else history[|history| - Capacity..]
  }

  /** The log never holds more than `Capacity` messages, and holds every message while there
      are no more than `Capacity` of them. */
  lemma RecentSize(history: seq<string>)
    ensures |Recent(history)| <= Capacity
    ensures |Recent(history)| == if |history| <= Capacity then |history| else Capacity
  {
  }

  /** Enqueueing one message and dequeueing one only when the queue then exceeds `Capacity`
      keeps the queue equal to the most recent messages of the whole history. */
  lemma RecentStep(history: seq<string>, m: string)
    ensures Recent(history + [m]) ==
            if |Recent(history)| < Capacity then Recent(history) + [m]
            else Recent(history)[1..] + [m]
  {
  }

  /** One append adds the message once more, even when the log already holds it, and drops
      exactly one message, the oldest, only when the log was full. */
  lemma RecentStepCounts(history: seq<string>, m: string)
    ensures var before, after := Recent(history), Recent(history + [m]);
            if |before| < Capacity then multiset(after) == multiset(before) + multiset{m}
            else multiset(after) == multiset(before) - multiset{before[0]} + multiset{m}
  {
    var before := Recent(history);
    RecentSize(history);
    RecentStep(history, m);
    if |before| >= Capacity {
      assert before == [before[0]] + before[1..];
      assert multiset(before) == multiset{before[0]} + multiset(before[1..]);
    }
  }
}
