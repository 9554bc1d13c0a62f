/** How CFQ rotates over its eight priority levels: cfq_get_next_prio_level of
    kernel/linux/block/cfq-iosched.c. */
module CfqRotation {

  const CFQ_PRIO_LISTS: nat := 8

  /** The order in which the levels take their turns: 0; 0, 1; 0, 1, 2; and so on, over and over. */
  const SCHEDULE: seq<nat> := [0,
                               0, 1,
                               0, 1, 2,
                               0, 1, 2, 3,
                               0, 1, 2, 3, 4,
                               0, 1, 2, 3, 4, 5,
                               0, 1, 2, 3, 4, 5, 6,
                               0, 1, 2, 3, 4, 5, 6, 7]

  const TURNS: nat := 36

  /** The level whose turn is k turns after turn i. */
  function Level(i: nat, k: nat): (p: nat)
    ensures p < CFQ_PRIO_LISTS
  {
    SCHEDULE[(i + k) % TURNS]
  }

  /** Where row e of the schedule begins. */
  function Row(e: nat): nat
    requires e < CFQ_PRIO_LISTS
  {
    [0, 1, 3, 6, 10, 15, 21, 28][e]
  }

  /** The turn the two cursors stand for. */
  function Turn(prio: nat, end: nat): (t: nat)
    requires prio <= end < CFQ_PRIO_LISTS
    ensures t < TURNS
  {
    Row(end) + prio
  }

  /** The turn after the last one of row e */
  function NextRow(e: nat): (t: nat)
    requires e < CFQ_PRIO_LISTS
    ensures t < TURNS
  {
    if e + 1 < CFQ_PRIO_LISTS then Turn(0, e + 1) else Turn(0, 0)
  }

  lemma RowStep(e: nat)
    requires e < CFQ_PRIO_LISTS
    ensures e + 1 < CFQ_PRIO_LISTS ==> Row(e + 1) == Row(e) + e + 1 && NextRow(e) == Turn(0, e + 1)
    ensures e + 1 == CFQ_PRIO_LISTS ==> Row(e) + e + 1 == TURNS && NextRow(e) == Turn(0, 0)
    ensures Row(0) == 0
  {
  }

  /** The cursors step through the schedule. */
  lemma AtTurn(i: nat, k: nat, prio: nat, end: nat)
    requires prio <= end < CFQ_PRIO_LISTS && Turn(prio, end) == (i + k) % TURNS
    ensures Level(i, k) == prio
    ensures (if prio < end then Turn(prio + 1, end) else NextRow(end)) == (i + k + 1) % TURNS
  {
    hide SCHEDULE, Turn, NextRow;
    ScheduleAt(prio, end);
    TurnNext(prio, end);
    NextMod(i + k);
  }

  lemma ScheduleAt(prio: nat, end: nat)
    requires prio <= end < CFQ_PRIO_LISTS
    ensures SCHEDULE[Turn(prio, end)] == prio
  {
  }

  lemma TurnNext(prio: nat, end: nat)
    requires prio <= end < CFQ_PRIO_LISTS
    ensures var t := Turn(prio, end);
            (if prio < end then Turn(prio + 1, end) else NextRow(end)) == if t + 1 < TURNS then t + 1 else 0
  {
    hide SCHEDULE;
  }

  lemma NextMod(a: nat)
    ensures (a + 1) % TURNS == if a % TURNS + 1 < TURNS then a % TURNS + 1 else 0
  {
  }

  /** Level p is served k turns after turn i, since nobody before it had anything to do. */
  ghost predicate Serves(lists: seq<seq<nat>>, i: nat, k: nat, p: nat)
    requires |lists| == CFQ_PRIO_LISTS
  {
    && p == Level(i, k) && lists[p] != []
    && forall j | 0 <= j < k :: lists[Level(i, j)] == []
  }

  /** Turns from i to the turn of level q in the last row. */
  function Wait(i: nat, q: nat): (w: nat)
    requires i < TURNS && q < CFQ_PRIO_LISTS
    ensures w < TURNS
  {
    if i <= 28 + q then 28 + q - i else 28 + q + TURNS - i
  }

  lemma WaitLevel(i: nat, q: nat)
    requires i < TURNS && q < CFQ_PRIO_LISTS
    ensures Level(i, Wait(i, q)) == q
  {
    assert (i + Wait(i, q)) % TURNS == 28 + q;
    ScheduleAt(q, 7);
    hide SCHEDULE;
  }

  /** A service of another level brings a waiting level's turn nearer. */
  lemma WaitShrinks(lists: seq<seq<nat>>, i: nat, k: nat, p: nat, q: nat)
    requires |lists| == CFQ_PRIO_LISTS && i < TURNS && q < CFQ_PRIO_LISTS && Serves(lists, i, k, p) && lists[q] != []
    ensures p == q || (k < Wait(i, q) && Wait((i + k + 1) % TURNS, q) == Wait(i, q) - k - 1)
  {
    var w := Wait(i, q);
    WaitLevel(i, q);
    hide Level, SCHEDULE;
    if k == w {
      assert p == q;
    } else {
      assert k < w;
      NextTurn(i, k);
    }
  }

  lemma NextTurn(i: nat, k: nat)
    requires i < TURNS && k < TURNS
    ensures (i + k) % TURNS == if i + k < TURNS then i + k else i + k - TURNS
    ensures (i + k + 1) % TURNS == if i + k + 1 < TURNS then i + k + 1 else i + k + 1 - TURNS
  {
  }

  lemma ServesSoon(lists: seq<seq<nat>>, i: nat, k: nat, p: nat)
    requires |lists| == CFQ_PRIO_LISTS && i < TURNS && Serves(lists, i, k, p)
    ensures k < TURNS
  {
    WaitLevel(i, p);
    hide Level, SCHEDULE;
  }

  /** A run of successful calls: from turn turns[n], call n serves level served[n], whatever
      the lists have become by then. */
  ghost predicate Run(turns: seq<nat>, lists: seq<seq<seq<nat>>>, served: seq<nat>) {
    && |turns| == |served| + 1 && |lists| == |served|
    && (forall n | 0 <= n < |turns| :: turns[n] < TURNS)
    && (forall n | 0 <= n < |served| :: |lists[n]| == CFQ_PRIO_LISTS && Call(turns[n], turns[n + 1], lists[n], served[n]))
  }

  ghost predicate Call(turn: nat, turn': nat, lists: seq<seq<nat>>, p: nat)
    requires |lists| == CFQ_PRIO_LISTS
  {
    exists k | 0 <= k < TURNS :: Serves(lists, turn, k, p) && turn' == (turn + k + 1) % TURNS
  }

  lemma ServesCall(lists: seq<seq<nat>>, i: nat, k: nat, p: nat, next: nat)
    requires |lists| == CFQ_PRIO_LISTS && i < TURNS && Serves(lists, i, k, p) && next == (i + k + 1) % TURNS
    ensures Call(i, next, lists, p) && p < CFQ_PRIO_LISTS && lists[p] != []
  {
    ServesSoon(lists, i, k, p);
    hide Level, SCHEDULE;
  }

  /** A level that stays non-empty is served within 36 successful calls. */
  lemma ServedWithin36(turns: seq<nat>, lists: seq<seq<seq<nat>>>, served: seq<nat>, q: nat)
    requires Run(turns, lists, served) && q < CFQ_PRIO_LISTS && |served| >= TURNS
    requires forall n | 0 <= n < |lists| :: lists[n][q] != []
    ensures exists n | 0 <= n < TURNS :: served[n] == q
  {
    if forall n | 0 <= n < TURNS :: served[n] != q {
      WaitAfter(turns, lists, served, q, TURNS);
    }
  }

  lemma {:induction false} WaitAfter(turns: seq<nat>, lists: seq<seq<seq<nat>>>, served: seq<nat>, q: nat, n: nat)
    requires Run(turns, lists, served) && q < CFQ_PRIO_LISTS && n <= |served|
    requires forall m | 0 <= m < |lists| :: lists[m][q] != []
    requires forall m | 0 <= m < n :: served[m] != q
    ensures Wait(turns[n], q) + n <= Wait(turns[0], q)
    decreases n
  {
    hide Wait, Level, Serves, SCHEDULE;
    if n > 0 {
      WaitAfter(turns, lists, served, q, n - 1);
      assert Call(turns[n - 1], turns[n - 1 + 1], lists[n - 1], served[n - 1]);
      var k :| 0 <= k < TURNS && Serves(lists[n - 1], turns[n - 1], k, served[n - 1]) &&
               turns[n] == (turns[n - 1] + k + 1) % TURNS;
      WaitShrinks(lists[n - 1], turns[n - 1], k, served[n - 1], q);
    }
  }

  /** A whole round without work: there is none. */
  lemma AllEmpty(lists: seq<seq<nat>>, i: nat, k: nat)
    requires |lists| == CFQ_PRIO_LISTS && i < TURNS && k >= TURNS
    requires forall j | 0 <= j < k :: lists[Level(i, j)] == []
    ensures forall p | 0 <= p < CFQ_PRIO_LISTS :: lists[p] == []
  {
    forall p | 0 <= p < CFQ_PRIO_LISTS ensures lists[p] == [] {
      WaitLevel(i, p);
    }
  }
}
