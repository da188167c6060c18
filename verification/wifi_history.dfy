// The array and cursor that remember a dial's retired sessions are a queue of the last eight distinct ones.
module WifiHistory {
  import opened Words
  import opened LinkState
  import opened WifiSession

  // What the queue should be: a new session joins the end and pushes out the oldest of eight; 0 and repeats change
  // nothing.
  function Push(q: seq<u32>, session: u32): seq<u32> {
    if session == 0 || session in q then q
    else if |q| == HISTORY then q[1..] + [session]
    else q + [session]
  }

  function PushAll(q: seq<u32>, sessions: seq<u32>): seq<u32>
    decreases |sessions|
  {
    if sessions == [] then q else PushAll(Push(q, sessions[0]), sessions[1..])
  }

  // Filled from the front, no session twice
  predicate RingOk(d: Dial) {
    && HistoryShaped(d)
    && (forall a, b :: 0 <= a < b < HISTORY && d.retired[b] != 0 ==> d.retired[a] != d.retired[b])
    && (forall k :: 0 <= k < d.retiredNext ==> d.retired[k] != 0)
    && (d.retired[d.retiredNext] == 0 ==> forall k :: d.retiredNext <= k < HISTORY ==> d.retired[k] == 0)
    && (d.retired[d.retiredNext] != 0 ==> forall k :: 0 <= k < HISTORY ==> d.retired[k] != 0)
  }

  // Oldest first
  function Sessions(d: Dial): seq<u32> {
    if !HistoryShaped(d) then []
    else if d.retired[d.retiredNext] == 0 then d.retired[..d.retiredNext]
    else d.retired[d.retiredNext..] + d.retired[..d.retiredNext]
  }

  lemma SessionsAre(d: Dial, session: u32)
    requires RingOk(d) && session != 0
    ensures session in Sessions(d) <==> session in d.retired
  {
    var n := d.retiredNext;
    assert d.retired == d.retired[..n] + d.retired[n..];
    if d.retired[n] == 0 {
      assert forall k :: 0 <= k < |d.retired[n..]| ==> d.retired[n..][k] == d.retired[n + k] == 0;
    }
  }

  // The place of the a-th session in the array
  function PlaceOf(d: Dial, a: nat): nat
    requires HistoryShaped(d)
  {
    if d.retired[d.retiredNext] == 0 then a else if a < HISTORY - d.retiredNext then d.retiredNext + a else a - (HISTORY - d.retiredNext)
  }

  lemma SessionAt(d: Dial, a: nat)
    requires RingOk(d) && a < |Sessions(d)|
    ensures |Sessions(d)| <= HISTORY && PlaceOf(d, a) < HISTORY && Sessions(d)[a] == d.retired[PlaceOf(d, a)] != 0
  {
  }

  lemma OtherPlace(d: Dial, a: nat, b: nat)
    requires RingOk(d) && a < HISTORY && b < HISTORY && a != b && d.retired[a] != 0 && d.retired[b] != 0
    ensures d.retired[a] != d.retired[b]
  {
  }

  lemma SessionsDistinct(d: Dial)
    requires RingOk(d)
    ensures |Sessions(d)| <= HISTORY
    ensures forall a, b :: 0 <= a < b < |Sessions(d)| ==> Sessions(d)[a] != Sessions(d)[b]
    ensures 0 !in Sessions(d)
  {
    RingShaped(d);
    hide RingOk, Sessions;
    if Sessions(d) != [] {
      SessionAt(d, 0);
    }
    forall a, b | 0 <= a < b < |Sessions(d)|
      ensures Sessions(d)[a] != Sessions(d)[b]
    {
      SessionAt(d, a);
      SessionAt(d, b);
      OtherPlace(d, PlaceOf(d, a), PlaceOf(d, b));
    }
    forall a | 0 <= a < |Sessions(d)|
      ensures Sessions(d)[a] != 0
    {
      SessionAt(d, a);
    }
  }

  lemma RingShaped(d: Dial)
    requires RingOk(d)
    ensures HistoryShaped(d)
  {
  }

  lemma RetireRing(d: Dial, session: u32, status: u8)
    requires RingOk(d)
    ensures RingOk(Retire(d, session, status))
  {
    hide RetiredIndex;
    var r := Retire(d, session, status);
    if session != 0 && RetiredIndex(d.retired, session) < 0 {
      assert forall k :: 0 <= k < HISTORY ==> d.retired[k] != session;
    } else {
      assert r.retired == d.retired;
    }
  }

  // Retiring a session is a push, and the verdict is remembered for it alone.
  lemma RetirePushes(d: Dial, session: u32, status: u8)
    requires RingOk(d)
    ensures var r := Retire(d, session, status);
            && RingOk(r)
            && Sessions(r) == Push(Sessions(d), session)
            && (session != 0 ==> RetiredIndex(r.retired, session) >= 0
                                 && r.retiredStatus[RetiredIndex(r.retired, session)] == status)
            && forall k :: 0 <= k < HISTORY && r.retired[k] != session ==>
                 r.retired[k] == d.retired[k] && r.retiredStatus[k] == d.retiredStatus[k]
  {
    hide Retire, Sessions, RetiredIndex, Push;
    RetireRing(d, session, status);
    RetireQueues(d, session, status);
    RetireRecords(d, session, status);
  }

  lemma RetireQueues(d: Dial, session: u32, status: u8)
    requires RingOk(d)
    ensures Sessions(Retire(d, session, status)) == Push(Sessions(d), session)
  {
    hide RetiredIndex;
    var r := Retire(d, session, status);
    var n := d.retiredNext;
    if session != 0 {
      SessionsAre(d, session);
      if RetiredIndex(d.retired, session) >= 0 {
        assert r.retired == d.retired;
      } else {
        assert r.retired == d.retired[..n] + [session] + d.retired[n + 1..];
        PushedAtCursor(d, session, r);
      }
    }
  }

  lemma RetireRecords(d: Dial, session: u32, status: u8)
    requires RingOk(d)
    ensures var r := Retire(d, session, status);
            && (session != 0 ==> RetiredIndex(r.retired, session) >= 0
                                 && r.retiredStatus[RetiredIndex(r.retired, session)] == status)
            && forall k :: 0 <= k < HISTORY && r.retired[k] != session ==>
                 r.retired[k] == d.retired[k] && r.retiredStatus[k] == d.retiredStatus[k]
  {
    hide RetiredIndex;
    var r := Retire(d, session, status);
    if session != 0 {
      var found := RetiredIndex(d.retired, session);
      var at := if found < 0 then d.retiredNext else found;
      assert r.retired[at] == session;
    }
  }

  lemma PushedAtCursor(d: Dial, session: u32, r: Dial)
    requires RingOk(d) && HistoryShaped(r) && session != 0 && session !in Sessions(d)
    requires r.retired == d.retired[..d.retiredNext] + [session] + d.retired[d.retiredNext + 1..]
    requires r.retiredNext == (d.retiredNext + 1) % HISTORY
    ensures Sessions(r) == Push(Sessions(d), session)
  {
    if d.retired[d.retiredNext] == 0 {
      PushedAtEnd(d, session, r);
    } else {
      PushedOver(d, session, r);
    }
  }

  lemma PushedAtEnd(d: Dial, session: u32, r: Dial)
    requires RingOk(d) && HistoryShaped(r) && session != 0 && session !in Sessions(d) && d.retired[d.retiredNext] == 0
    requires r.retired == d.retired[..d.retiredNext] + [session] + d.retired[d.retiredNext + 1..]
    requires r.retiredNext == (d.retiredNext + 1) % HISTORY
    ensures Sessions(r) == Sessions(d) + [session] && |Sessions(d)| < HISTORY
  {
    hide RingOk;
    RingEnd(d);
    Spliced(d.retired, d.retiredNext, session);
  }

  // Around the cursor of a ring that is not full
  lemma RingEnd(d: Dial)
    requires RingOk(d) && d.retired[d.retiredNext] == 0
    ensures HistoryShaped(d) && (d.retiredNext > 0 ==> d.retired[0] != 0)
    ensures d.retiredNext + 1 < HISTORY ==> d.retired[d.retiredNext + 1] == 0
  {
  }

  lemma Spliced(s: seq<u32>, n: nat, x: u32)
    requires n < |s|
    ensures var t := s[..n] + [x] + s[n + 1..];
            && t[..n + 1] == s[..n] + [x]
            && (n + 1 < |s| ==> t[n + 1] == s[n + 1])
            && (n > 0 ==> t[0] == s[0])
            && (n + 1 == |s| ==> t[0..] + t[..0] == s[..n] + [x])
  {
  }

  lemma PushedOver(d: Dial, session: u32, r: Dial)
    requires RingOk(d) && HistoryShaped(r) && session != 0 && session !in Sessions(d) && d.retired[d.retiredNext] != 0
    requires r.retired == d.retired[..d.retiredNext] + [session] + d.retired[d.retiredNext + 1..]
    requires r.retiredNext == (d.retiredNext + 1) % HISTORY
    ensures Sessions(r) == Sessions(d)[1..] + [session] && |Sessions(d)| == HISTORY
  {
    hide RingOk;
    RingFull(d);
    Rotated(d.retired, d.retiredNext, session);
    Spliced(d.retired, d.retiredNext, session);
  }

  lemma RingFull(d: Dial)
    requires RingOk(d) && d.retired[d.retiredNext] != 0
    ensures HistoryShaped(d) && d.retired[0] != 0
    ensures d.retiredNext + 1 < HISTORY ==> d.retired[d.retiredNext + 1] != 0
  {
  }

  // Writing over the oldest of a full ring and moving the cursor on drops it and appends the new one.
  lemma Rotated(s: seq<u32>, n: nat, x: u32)
    requires n < |s|
    ensures var t := s[..n] + [x] + s[n + 1..];
            var m := if n + 1 < |s| then n + 1 else 0;
            t[m..] + t[..m] == (s[n..] + s[..n])[1..] + [x]
  {
    var a, b := s[..n], s[n + 1..];
    var t := a + [x] + b;
    assert s[n..] == [s[n]] + b;
    assert (s[n..] + a)[1..] == b + a;
    if n + 1 < |s| {
      assert t[n + 1..] == b && t[..n + 1] == a + [x];
    } else {
      assert b == [] && t[0..] + t[..0] == a + [x];
    }
  }

  // The sessions retired that are not 0 and were not among those to keep
  function Others(keep: seq<u32>, sessions: seq<u32>): set<u32> {
    set x | x in sessions && x != 0 && x !in keep
  }

  lemma OthersStep(keep: seq<u32>, keep': seq<u32>, sessions: seq<u32>)
    requires sessions != [] && (forall x :: x in keep ==> x in keep')
    requires sessions[0] in keep' || sessions[0] == 0
    ensures Others(keep', sessions[1..]) <= Others(keep, sessions)
    ensures sessions[0] != 0 && sessions[0] !in keep ==> Others(keep', sessions[1..]) <= Others(keep, sessions) - {sessions[0]}
  {
  }

  lemma SetGrows(a: set<u32>, b: set<u32>)
    requires a <= b
    ensures |a| <= |b|
  {
    assert b == a + (b - a);
  }

  // A retired session stays remembered until other sessions have filled the eight places: those retired after it, and
  // the distinct ones that join, repeats not counted.
  lemma {:induction false} Remembered(q: seq<u32>, k: nat, sessions: seq<u32>)
    requires |q| <= HISTORY && k < |q| && |q| - k + |Others(q[k..], sessions)| <= HISTORY
    ensures q[k] in PushAll(q, sessions)
    decreases |sessions|
  {
    if sessions != [] {
      var x := sessions[0];
      var p := Push(q, x);
      var rest := sessions[1..];
      if p == q {
        if x == 0 || x in q[k..] {
          OthersStep(q[k..], q[k..], sessions);
        } else {
          assert Others(q[k..], rest) <= Others(q[k..], sessions);
        }
        SetGrows(Others(q[k..], rest), Others(q[k..], sessions));
        Remembered(q, k, rest);
      } else {
        assert x in Others(q[k..], sessions);
        SetGrows({x}, Others(q[k..], sessions));
        var at := if |q| < HISTORY then k else k - 1;
        assert p[at..] == q[k..] + [x];
        OthersStep(q[k..], p[at..], sessions);
        SetGrows(Others(p[at..], rest), Others(q[k..], sessions) - {x});
        Remembered(p, at, rest);
      }
    }
  }
}
