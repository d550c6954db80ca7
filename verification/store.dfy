/** The message handlers of 04-fprocessor/web/src/storedash.js and storemon.js:
    each incoming message replaces the first entry with the same id, or is
    appended when there is none (`findIndex`, then `push` or assignment).
    Decoded messages are `Message` values; JSON's omitted zero id compares
    equal to itself exactly as the integer 0 does. */
module Store {
  import opened Messages
  import Pipeline

  function Ids(xs: seq<Message>): (r: seq<int>)
    ensures |r| == |xs| && forall k :: 0 <= k < |xs| ==> r[k] == xs[k].id
  {
    seq(|xs|, k requires 0 <= k < |xs| => xs[k].id)
  }

  predicate Distinct(s: seq<int>)
  {
    forall i, j :: 0 <= i < j < |s| ==> s[i] != s[j]
  }

  /** `msgs.findIndex(x => x.id === id)`: the first index with that id, or -1. */
  function FindIndex(xs: seq<Message>, id: int): (r: int)
    ensures -1 <= r < |xs|
    ensures r == -1 <==> id !in Ids(xs)
    ensures r >= 0 ==> xs[r].id == id && forall k :: 0 <= k < r ==> xs[k].id != id
    decreases |xs|
  {
    if |xs| == 0 then -1
    else if xs[0].id == id then 0
    else
      var r := FindIndex(xs[1..], id);
      assert Ids(xs) == [xs[0].id] + Ids(xs[1..]);
      if r == -1 then -1 else r + 1
  }

  /** `0 > idx ? msgs.push(msg) : msgs[idx] = msg`. */
  function Upsert(xs: seq<Message>, m: Message): (r: seq<Message>)
    ensures m.id !in Ids(xs) ==> |r| == |xs| + 1 && r[..|xs|] == xs && r[|xs|] == m
    ensures m.id in Ids(xs) ==>
      var idx := FindIndex(xs, m.id);
      && |r| == |xs| && r[idx] == m
      && (forall k :: 0 <= k < idx ==> xs[k].id != m.id)
      && (forall k :: 0 <= k < |xs| && k != idx ==> r[k] == xs[k])
  {
    var idx := FindIndex(xs, m.id);
    if idx < 0 then xs + [m] else xs[idx := m]
  }

  /** The ids after an upsert: unchanged when the id was present, the new id
      appended otherwise. */
  lemma IdsAfterUpsert(xs: seq<Message>, m: Message)
    ensures Ids(Upsert(xs, m)) == if m.id in Ids(xs) then Ids(xs) else Ids(xs) + [m.id]
  {
  }

  /** Every upsert keeps the ids pairwise distinct. */
  lemma UpsertKeepsDistinct(xs: seq<Message>, m: Message)
    requires Distinct(Ids(xs))
    ensures Distinct(Ids(Upsert(xs, m)))
  {
    IdsAfterUpsert(xs, m);
  }

  /** Upserting the same message twice is upserting it once. */
  lemma UpsertIdempotent(xs: seq<Message>, m: Message)
    ensures Upsert(Upsert(xs, m), m) == Upsert(xs, m)
  {
    var once := Upsert(xs, m);
    IdsAfterUpsert(xs, m);
    if m.id in Ids(xs) {
      var idx := FindIndex(xs, m.id);
      assert FindIndex(once, m.id) == idx by {
        assert forall k :: 0 <= k < idx ==> once[k].id != m.id;
        assert once[idx].id == m.id;
        FindIndexIs(once, m.id, idx);
      }
    } else {
      FindIndexIs(once, m.id, |xs|);
    }
  }

  /** `FindIndex` is the first match. */
  lemma FindIndexIs(xs: seq<Message>, id: int, i: int)
    requires 0 <= i < |xs| && xs[i].id == id
    requires forall k :: 0 <= k < i ==> xs[k].id != id
    ensures FindIndex(xs, id) == i
  {
  }

  /** A run of messages, each upserted in turn: no row is lost, at most one
      row is added per message, and ids that were distinct stay distinct. */
  function UpsertAll(xs: seq<Message>, ms: seq<Message>): (r: seq<Message>)
    ensures |xs| <= |r| <= |xs| + |ms|
    ensures Distinct(Ids(xs)) ==> Distinct(Ids(r))
    decreases |ms|
  {
    if |ms| == 0 then xs
    else
      var front := UpsertAll(xs, ms[..|ms| - 1]);
      var m := ms[|ms| - 1];
      IdsAfterUpsert(front, m);
      assert Distinct(Ids(xs)) ==> Distinct(Ids(Upsert(front, m))) by {
        if Distinct(Ids(xs)) {
          UpsertKeepsDistinct(front, m);
        }
      }
      Upsert(front, m)
  }

  /** After a run of messages the table holds exactly the ids it held before
      and the ids that arrived. */
  lemma {:induction false} UpsertAllIds(xs: seq<Message>, ms: seq<Message>, id: int)
    ensures id in Ids(UpsertAll(xs, ms)) <==> id in Ids(xs) || id in Ids(ms)
    decreases |ms|
  {
    if |ms| > 0 {
      var front, m := ms[..|ms| - 1], ms[|ms| - 1];
      UpsertAllIds(xs, front, id);
      UpsertHasId(UpsertAll(xs, front), m, id);
      IdsOfSnoc(ms);
    }
  }

  lemma UpsertHasId(xs: seq<Message>, m: Message, id: int)
    ensures id in Ids(Upsert(xs, m)) <==> id in Ids(xs) || id == m.id
  {
    IdsAfterUpsert(xs, m);
  }

  lemma IdsOfSnoc(ms: seq<Message>)
    requires |ms| > 0
    ensures Ids(ms) == Ids(ms[..|ms| - 1]) + [ms[|ms| - 1].id]
  {
  }

  /** The ids of `s` in order of first appearance (the reference for the table's order). */
  function FirstArrivals(s: seq<int>): (r: seq<int>)
    ensures Distinct(r)
    ensures forall x :: x in r <==> x in s
    decreases |s|
  {
    if |s| == 0 then []
    else
      var d := FirstArrivals(s[..|s| - 1]);
      var x := s[|s| - 1];
      assert forall y :: y in s <==> y in s[..|s| - 1] || y == x;
      if x in d then d else d + [x]
  }

  /** The dashboard (storedash.js) starts with an empty list. */
  const DashboardInitial: seq<Message> := []

  /** After any run of messages the dashboard lists each id once, in the
      order the ids first arrived. */
  lemma {:induction false} DashboardOrder(ms: seq<Message>)
    ensures Ids(UpsertAll(DashboardInitial, ms)) == FirstArrivals(Ids(ms))
    ensures Distinct(Ids(UpsertAll(DashboardInitial, ms)))
    decreases |ms|
  {
    if |ms| > 0 {
      var init, m := ms[..|ms| - 1], ms[|ms| - 1];
      var before := UpsertAll(DashboardInitial, init);
      DashboardOrder(init);
      assert UpsertAll(DashboardInitial, ms) == Upsert(before, m);
      IdsOfSnoc(ms);
      ArrivalStep(before, m, Ids(init));
    }
  }

  /** One upsert extends the first-arrival order by the message's id. */
  lemma ArrivalStep(xs: seq<Message>, m: Message, ids: seq<int>)
    requires Ids(xs) == FirstArrivals(ids)
    ensures Ids(Upsert(xs, m)) == FirstArrivals(ids + [m.id])
  {
    IdsAfterUpsert(xs, m);
    assert (ids + [m.id])[..|ids|] == ids;
  }

  /** The table storemon.js starts from. */
  const MonitorInitial: seq<Message> := [
    Message(1, 100, "File receiver"),
    Message(2, 100, "Data integrity"),
    Message(3, 100, "Data dispatcher"),
    Message(4, 100, "File maker"),
    Message(5, 100, "Data archiving"),
    Message(6, 100, "File sender")]

  const MonitorIds: seq<int> := [1, 2, 3, 4, 5, 6]

  lemma MonitorInitialShape()
    ensures Ids(MonitorInitial) == MonitorIds
    ensures Distinct(Ids(MonitorInitial))
    ensures forall k :: 0 <= k < |MonitorInitial| ==> MonitorInitial[k].state == 100
  {
    assert Ids(MonitorInitial) == MonitorIds;
  }

  /** On the monitor table, a message with an id in 1..6 replaces that entry
      and the table keeps its six ids in order; any other id is appended. */
  lemma MonitorUpsert(xs: seq<Message>, m: Message)
    requires Ids(xs) == MonitorIds
    ensures 1 <= m.id <= 6 ==> Ids(Upsert(xs, m)) == MonitorIds && Upsert(xs, m)[m.id - 1] == m
    ensures !(1 <= m.id <= 6) ==> |Upsert(xs, m)| == 7 && Upsert(xs, m)[6] == m
  {
    IdsAfterUpsert(xs, m);
    if 1 <= m.id <= 6 {
      assert Ids(xs)[m.id - 1] == m.id;
      FindIndexIs(xs, m.id, m.id - 1);
    }
  }

  /** Events whose ids all lie in 1..5 keep the monitor's six rows in place
      and never touch the sixth ("File sender"). */
  lemma {:induction false} MonitorKeepsShape(ms: seq<Message>)
    requires forall k :: 0 <= k < |ms| ==> 1 <= ms[k].id <= 5
    ensures Ids(UpsertAll(MonitorInitial, ms)) == MonitorIds
    ensures UpsertAll(MonitorInitial, ms)[5] == MonitorInitial[5]
    decreases |ms|
  {
    if |ms| == 0 {
      MonitorInitialShape();
    } else {
      var front := ms[..|ms| - 1];
      var m := ms[|ms| - 1];
      MonitorKeepsShape(front);
      var xs := UpsertAll(MonitorInitial, front);
      assert UpsertAll(MonitorInitial, ms) == Upsert(xs, m);
      MonitorUpsert(xs, m);
      UpsertElsewhere(xs, m, 5);
    }
  }

  /** The monitor page fed by `StateMonitor`: whatever the random picks, the
      table keeps its six ids and the "File sender" row keeps its initial
      state, since `StateMonitor` never picks it. */
  lemma MonitorFedByStateMonitor(picks: seq<int>)
    requires forall k :: 0 <= k < |picks| ==> 0 <= picks[k] < 5
    ensures var ms := seq(|picks|, k requires 0 <= k < |picks| => Pipeline.StateMonitor(picks[k]));
            Ids(UpsertAll(MonitorInitial, ms)) == MonitorIds &&
            UpsertAll(MonitorInitial, ms)[5] == Message(6, 100, "File sender")
  {
    var ms := seq(|picks|, k requires 0 <= k < |picks| => Pipeline.StateMonitor(picks[k]));
    MonitorKeepsShape(ms);
  }

  /** On the monitor table an update for id 1..5 leaves row `k` alone when
      it holds another id. */
  lemma UpsertElsewhere(xs: seq<Message>, m: Message, k: int)
    requires Ids(xs) == MonitorIds && 1 <= m.id <= 5
    requires 0 <= k < 6 && k != m.id - 1
    ensures Upsert(xs, m)[k] == xs[k]
  {
    assert Ids(xs)[m.id - 1] == m.id;
    FindIndexIs(xs, m.id, m.id - 1);
  }
}
