// A retired session stays retired: over every run, until the dial's history is wiped or eight other sessions have
// taken the places, a start of it is refused and it gets neither the hotspot nor a start.
module WifiLasting {
  import opened Words
  import opened Bonds
  import opened LinkState
  import opened WifiSession
  import opened WifiHistory
  import opened WifiFrame
  import opened WifiStory
  import opened LinkSpec
  import opened LinkFrame
  import opened LinkRun
  import opened LinkTable
  import opened LinkHistory
  import opened LinkGuard
  import opened LinkPeers
  import opened LinkWifi
  import opened LinkLog

  // The sessions the dial has retired since, in order
  function RetiredIn(log: seq<Event>, from: nat, mac: seq<u8>): seq<u32>
    decreases |log|
  {
    if |log| <= from then []
    else
      var e := log[|log| - 1];
      RetiredIn(log[..|log| - 1], from, mac) + if e.Retired? && e.mac == mac then [e.session] else []
  }

  lemma {:induction false} PushAllSnoc(q: seq<u32>, a: seq<u32>, x: u32)
    ensures PushAll(q, a + [x]) == Push(PushAll(q, a), x)
    decreases |a|
  {
    if a == [] {
      assert ([] + [x])[1..] == [];
    } else {
      assert (a + [x])[1..] == a[1..] + [x];
      PushAllSnoc(Push(q, a[0]), a[1..], x);
    }
  }

  predicate NoWipe(log: seq<Event>, from: nat, mac: seq<u8>) {
    forall k :: from <= k < |log| ==> !Wipes(log[k], mac)
  }

  // What the monitor remembers of a dial is what it remembered before and what was retired since.
  lemma {:induction false} QueueSince(log: seq<Event>, from: nat, mac: seq<u8>)
    requires from <= |log| && NoWipe(log, from, mac)
    ensures QueueOf(Watch(log), mac) == PushAll(QueueOf(Watch(log[..from]), mac), RetiredIn(log, from, mac))
    decreases |log|
  {
    hide Push;
    if from == |log| {
      assert log[..from] == log;
    } else {
      var rest, e := log[..|log| - 1], log[|log| - 1];
      QueueSince(rest, from, mac);
      assert rest[..from] == log[..from];
      if e.Retired? && e.mac == mac {
        PushAllSnoc(QueueOf(Watch(log[..from]), mac), RetiredIn(rest, from, mac), e.session);
      } else {
        assert RetiredIn(rest, from, mac) + [] == RetiredIn(rest, from, mac);
      }
    }
  }

  lemma {:induction false} RetiredPrefix(log: seq<Event>, from: nat, mac: seq<u8>, n: nat)
    requires from <= n <= |log|
    ensures forall x :: x in RetiredIn(log[..n], from, mac) ==> x in RetiredIn(log, from, mac)
    decreases |log|
  {
    if n < |log| {
      RetiredPrefix(log[..|log| - 1], from, mac, n);
      assert log[..|log| - 1][..n] == log[..n];
    } else {
      assert log[..n] == log;
    }
  }

  // The place of the session in the queue, and the others that have been retired since, leave it one of the eight.
  predicate Lasts(q: seq<u32>, k: nat, since: seq<u32>) {
    k < |q| <= HISTORY && |q| - k + |Others(q[k..], since)| <= HISTORY
  }

  lemma FewerOthers(q: seq<u32>, k: nat, a: seq<u32>, b: seq<u32>)
    requires Lasts(q, k, b) && forall x :: x in a ==> x in b
    ensures Lasts(q, k, a)
  {
    SetGrows(Others(q[k..], a), Others(q[k..], b));
  }

  // --- In the log ---

  // The owner of the hotspot, before its verdict, is no session its dial has retired.
  lemma {:induction false} LiveNotRetired(log: seq<Event>)
    requires Watch(log).ok
    ensures var m := Watch(log);
            m.owner.Some? && m.verdict.None? && m.owner.value.1 != 0 ==> m.owner.value.1 !in QueueOf(m, m.owner.value.0)
    decreases |log|
  {
    if log != [] {
      LiveNotRetired(log[..|log| - 1]);
    }
  }

  lemma {:induction false} HoldsOwner(log: seq<Event>, j: nat, mac: seq<u8>, session: u32)
    requires Holds(log, j, mac, session)
    ensures Watch(log).owner == Some((mac, session))
    decreases |log|
  {
    var rest := log[..|log| - 1];
    if j < |log| - 1 {
      assert rest[j] == log[j] && forall k :: j < k < |rest| ==> rest[k] == log[k];
      HoldsOwner(rest, j, mac, session);
    }
  }

  // Neither the hotspot nor a start
  predicate Nothing(log: seq<Event>, n: nat, mac: seq<u8>, session: u32)
    requires n < |log|
  {
    && log[n] != Owned(mac, session)
    && (log[n].SetupHook? && log[n].mac == mac ==> forall j :: 0 <= j < n ==> !Holds(log[..n], j, mac, session))
  }

  lemma RetiredGetsNothing(log: seq<Event>, n: nat, mac: seq<u8>, session: u32)
    requires n < |log| && Watch(log).ok && session != 0 && session in QueueOf(Watch(log[..n]), mac)
    ensures Nothing(log, n, mac, session)
  {
    hide Push, Holds;
    WatchPrefix(log, n + 1);
    assert log[..n + 1][..n] == log[..n];
    WatchPrefix(log, n);
    if log[n].SetupHook? && log[n].mac == mac {
      LiveNotRetired(log[..n]);
      forall j | 0 <= j < n
        ensures !Holds(log[..n], j, mac, session)
      {
        if Holds(log[..n], j, mac, session) {
          HoldsOwner(log[..n], j, mac, session);
        }
      }
    }
  }

  // --- Over whole runs ---

  lemma {:induction false} UndisturbedMeans(c: Core, steps: seq<Step>, crypto: Crypto, mac: seq<u8>)
    requires AllShaped(c.dials) && Undisturbed(c, steps, crypto, mac)
    ensures forall k :: 0 <= k < |steps| ==> steps[k].Done? && !Forgets(steps[k], mac)
    decreases |steps|
  {
    hide After, Forgets, IsCommit;
    if steps != [] {
      AfterShaped(c, steps[0], crypto);
      UndisturbedMeans(After(c, steps[0], crypto), steps[1..], crypto, mac);
      assert forall k :: 1 <= k < |steps| ==> steps[k] == steps[1..][k - 1];
    }
  }

  lemma {:induction false} StaysUp(c: Core, steps: seq<Step>, crypto: Crypto)
    requires c.started && AllShaped(c.dials) && forall k :: 0 <= k < |steps| ==> steps[k].Done?
    ensures Run(c, steps, crypto).started
    decreases |steps|
  {
    hide Apply;
    if steps != [] {
      ApplyBoot(c, steps[0].op, crypto, steps[0].env);
      AfterShaped(c, steps[0], crypto);
      StaysUp(After(c, steps[0], crypto), steps[1..], crypto);
    }
  }

  lemma HeldFound(c: Core, was: seq<Bond>, mac: seq<u8>)
    requires Table(c) && c.started && Held(was, Durable(c.world), mac)
    requires exists k :: 0 <= k < |was| && was[k].mac == mac
    ensures Find(c.dials, mac) >= 0
  {
    hide Find, Durable, CandidateOk, ValidTable, Latched;
    var j :| 0 <= j < |Durable(c.world)| && Durable(c.world)[j].mac == mac;
    assert BondsOf(c.dials)[j].mac == c.dials[j].bond.mac;
  }

  // While nothing clears its history, a bonded dial stays bonded.
  lemma StaysBonded(c: Core, steps: seq<Step>, crypto: Crypto, mac: seq<u8>)
    requires Table(c) && AllShaped(c.dials) && c.started && Find(c.dials, mac) >= 0
    requires Undisturbed(c, steps, crypto, mac)
    ensures Find(Run(c, steps, crypto).dials, mac) >= 0
  {
    hide Table, Run, Find, Held, Durable, Forgets, Undisturbed;
    UndisturbedMeans(c, steps, crypto, mac);
    StaysUp(c, steps, crypto);
    Pinned(c, steps, crypto, mac);
    RunTable(c, steps, crypto);
    FoundDurable(c, mac);
    HeldFound(Run(c, steps, crypto), Durable(c.world), mac);
  }

  lemma FoundDurable(c: Core, mac: seq<u8>)
    requires Table(c) && c.started && Find(c.dials, mac) >= 0
    ensures exists k :: 0 <= k < |Durable(c.world)| && Durable(c.world)[k].mac == mac
  {
    hide Durable, CandidateOk, ValidTable, Find;
    var i := Find(c.dials, mac);
    assert BondsOf(c.dials)[i] == c.dials[i].bond;
  }

  lemma DialQueue(c: Core, mac: seq<u8>)
    requires Wifi(c) && Find(c.dials, mac) >= 0
    ensures var d := c.dials[Find(c.dials, mac)];
            RingOk(d) && Sessions(d) == QueueOf(Watch(c.world.log), mac)
  {
    hide Watch, RingOk, Sessions, Queued, Alive, Tells;
  }

  // Over every run that does not clear it, a dial's history is what it was and what has been retired since.
  lemma HistoryRun(c: Core, steps: seq<Step>, crypto: Crypto, mac: seq<u8>)
    requires Wifi(c) && Table(c) && AllShaped(c.dials) && c.started && Find(c.dials, mac) >= 0
    requires Undisturbed(c, steps, crypto, mac)
    ensures var r := Run(c, steps, crypto);
            && Find(r.dials, mac) >= 0
            && Sessions(r.dials[Find(r.dials, mac)])
               == PushAll(Sessions(c.dials[Find(c.dials, mac)]), RetiredIn(r.world.log, |c.world.log|, mac))
  {
    hide Wifi, Table, Run, Find, Undisturbed, Sessions, RingOk, Watch, RetiredIn, PushAll;
    var r := Run(c, steps, crypto);
    StaysBonded(c, steps, crypto, mac);
    RunWifi(c, steps, crypto);
    RunCalm(c, steps, crypto, mac);
    DialQueue(c, mac);
    DialQueue(r, mac);
    QueueSince(r.world.log, |c.world.log|, mac);
  }

  // A session retired once, by a cancel, a takeover or a hotspot found closed, is refused in every later state of a run
  // that does not clear the dial's history, until other sessions have taken its place among the eight; and in all that
  // time it gets neither the hotspot nor a start.
  lemma StaysRefused(c: Core, steps: seq<Step>, crypto: Crypto, mac: seq<u8>, k: nat)
    requires Wifi(c) && Table(c) && AllShaped(c.dials) && c.started && Find(c.dials, mac) >= 0
    requires Undisturbed(c, steps, crypto, mac)
    requires Lasts(Sessions(c.dials[Find(c.dials, mac)]), k, RetiredIn(Run(c, steps, crypto).world.log, |c.world.log|, mac))
    ensures var r := Run(c, steps, crypto);
            var session := Sessions(c.dials[Find(c.dials, mac)])[k];
            && Find(r.dials, mac) >= 0 && Refused(r, Find(r.dials, mac), session)
            && forall n :: |c.world.log| <= n < |r.world.log| ==> Nothing(r.world.log, n, mac, session)
  {
    hide Wifi, Table, Run, Find, Undisturbed, Sessions, RingOk, Watch, RetiredIn, PushAll, Lasts, Nothing;
    var r := Run(c, steps, crypto);
    var q := Sessions(c.dials[Find(c.dials, mac)]);
    HistoryRun(c, steps, crypto, mac);
    RunWifi(c, steps, crypto);
    RunCalm(c, steps, crypto, mac);
    DialQueue(c, mac);
    DialQueue(r, mac);
    WifiOk(r);
    NonZero(c.dials[Find(c.dials, mac)], k, RetiredIn(r.world.log, |c.world.log|, mac));
    RememberedIn(r.dials[Find(r.dials, mac)], q, k, RetiredIn(r.world.log, |c.world.log|, mac));
    forall n | |c.world.log| <= n < |r.world.log|
      ensures Nothing(r.world.log, n, mac, q[k])
    {
      StillThere(r.world.log, |c.world.log|, n, mac, q, k);
      RetiredGetsNothing(r.world.log, n, mac, q[k]);
    }
  }

  lemma NonZero(d: Dial, k: nat, since: seq<u32>)
    requires RingOk(d) && Lasts(Sessions(d), k, since)
    ensures k < |Sessions(d)| && Sessions(d)[k] != 0
  {
    hide RingOk;
    SessionsDistinct(d);
  }

  lemma RememberedIn(d: Dial, q: seq<u32>, k: nat, since: seq<u32>)
    requires RingOk(d) && Lasts(q, k, since) && Sessions(d) == PushAll(q, since) && q[k] != 0
    ensures q[k] in d.retired
  {
    Remembered(q, k, since);
    SessionsAre(d, q[k]);
  }

  lemma StillThere(log: seq<Event>, from: nat, n: nat, mac: seq<u8>, q: seq<u32>, k: nat)
    requires from <= n <= |log| && NoWipe(log, from, mac) && q == QueueOf(Watch(log[..from]), mac)
    requires Lasts(q, k, RetiredIn(log, from, mac))
    ensures q[k] in QueueOf(Watch(log[..n]), mac)
  {
    hide Watch, QueueOf;
    RetiredPrefix(log, from, mac, n);
    FewerOthers(q, k, RetiredIn(log[..n], from, mac), RetiredIn(log, from, mac));
    assert log[..n][..from] == log[..from];
    QueueSince(log[..n], from, mac);
    Remembered(q, k, RetiredIn(log[..n], from, mac));
  }
}
