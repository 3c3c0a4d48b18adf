/**
 thread_consider_migration (kern/thread/thread.c) with nobody interfering: its loops, what they conserve
 and how evenly they leave the run queues. Interference is covered by the state machine of Sched.
 */
module Balance {
  import opened Prelude

  function Total(qs: seq<seq<nat>>): nat {
    if qs == [] then 0 else Total(qs[..|qs| - 1]) + |qs[|qs| - 1]|
  }

  /** All queued threads, with how often each is queued. */
  function Everybody(qs: seq<seq<nat>>): multiset<nat> {
    if qs == [] then multiset{} else Everybody(qs[..|qs| - 1]) + multiset(qs[|qs| - 1])
  }

  /** DIVROUNDUP. */
  function Share(total: nat, n: nat): (r: nat)
    requires n > 0
  {
    (total + n - 1) / n
  }

  lemma ShareCovers(total: nat, n: nat)
    requires n > 0
    ensures Share(total, n) * n >= total
  {
    var r, m := Share(total, n), (total + n - 1) % n;
    assert total + n - 1 == n * r + m;
    Commute(n, r);
  }

  lemma Commute(a: int, b: int)
    ensures a * b == b * a
  {
  }

  lemma {:induction false} UpdateTotal(qs: seq<seq<nat>>, i: nat, q: seq<nat>)
    requires i < |qs|
    ensures Total(qs[i := q]) == Total(qs) - |qs[i]| + |q|
  {
    var n := |qs| - 1;
    if i == n {
      assert qs[i := q][..n] == qs[..n];
    } else {
      assert qs[i := q][..n] == qs[..n][i := q];
      UpdateTotal(qs[..n], i, q);
    }
  }

  lemma {:induction false} UpdateEverybody(qs: seq<seq<nat>>, i: nat, q: seq<nat>, t: nat)
    requires i < |qs|
    ensures Everybody(qs[i := q])[t] + multiset(qs[i])[t] == Everybody(qs)[t] + multiset(q)[t]
  {
    var n := |qs| - 1;
    if i == n {
      assert qs[i := q][..n] == qs[..n];
    } else {
      assert qs[i := q][..n] == qs[..n][i := q];
      UpdateEverybody(qs[..n], i, q, t);
    }
  }

  lemma {:induction false} AllFull(qs: seq<seq<nat>>, share: nat)
    requires forall j :: 0 <= j < |qs| ==> |qs[j]| >= share
    ensures Total(qs) >= share * |qs|
  {
    if qs != [] {
      var n := |qs| - 1;
      AllFull(qs[..n], share);
      Successor(share, n);
    }
  }

  lemma Successor(share: nat, n: nat)
    ensures share * (n + 1) == share * n + share
  {
  }

  // ---------------------------------------------------------------- what the sender keeps

  /** The first share threads, and the current thread if it was among the others. */
  function Kept(q: seq<nat>, share: nat, cur: nat): seq<nat>
    requires share <= |q|
  {
    q[..share] + Skipped(q[share..], cur)
  }

  function Skipped(taken: seq<nat>, cur: nat): seq<nat> { if cur in taken then [cur] else [] }

  /** The victims after the first p of the threads taken off were sent or skipped. */
  function Left(taken: seq<nat>, p: nat, cur: nat): seq<nat>
    requires p <= |taken|
  {
    taken[p..] + Skipped(taken[..p], cur)
  }

  lemma LeftStep(taken: seq<nat>, p: nat, cur: nat)
    requires p < |taken| && NoDup(taken)
    ensures Left(taken, p, cur) != [] && Left(taken, p, cur)[0] == taken[p]
    ensures taken[p] != cur ==> Left(taken, p + 1, cur) == Left(taken, p, cur)[1..]
    ensures taken[p] == cur ==> Left(taken, p + 1, cur) == Left(taken, p, cur)[1..] + [cur]
    ensures taken[p] == cur ==> Skipped(taken[..p], cur) == []
  {
    assert taken[..p + 1] == taken[..p] + [taken[p]];
    assert forall k :: 0 <= k < p ==> taken[k] != taken[p];
  }

  /** The threads of a stretch of the victims that are sent: all but the current thread. */
  function Sent(s: seq<nat>, cur: nat): seq<nat> {
    if s == [] then [] else Sent(s[..|s| - 1], cur) + if s[|s| - 1] == cur then [] else [s[|s| - 1]]
  }

  /** t_cpu after sending the threads of s to CPU c. */
  function Assign(tcpu: map<nat, nat>, s: seq<nat>, c: nat): map<nat, nat> {
    if s == [] then tcpu else Assign(tcpu, s[..|s| - 1], c)[s[|s| - 1] := c]
  }

  lemma {:induction false} SentMembers(s: seq<nat>, cur: nat)
    ensures forall t :: t in Sent(s, cur) <==> t in s && t != cur
  {
    if s != [] {
      var n := |s| - 1;
      SentMembers(s[..n], cur);
      assert s == s[..n] + [s[n]];
    }
  }

  /** Sent or skipped: each victim exactly once. */
  lemma {:induction false} SentCounts(s: seq<nat>, cur: nat, t: nat)
    requires NoDup(s)
    ensures multiset(Sent(s, cur))[t] + multiset(Skipped(s, cur))[t] == multiset(s)[t]
    ensures |Sent(s, cur)| + |Skipped(s, cur)| == |s|
  {
    if s != [] {
      var n := |s| - 1;
      SentCounts(s[..n], cur, t);
      assert s == s[..n] + [s[n]];
      assert forall k :: 0 <= k < n ==> s[..n][k] != s[n];
      assert cur in s <==> cur in s[..n] || cur == s[n];
    }
  }

  lemma {:induction false} AssignAt(tcpu: map<nat, nat>, s: seq<nat>, c: nat)
    ensures forall t :: t in Assign(tcpu, s, c) <==> t in tcpu || t in s
    ensures forall t :: t in Assign(tcpu, s, c) ==> Assign(tcpu, s, c)[t] == if t in s then c else tcpu[t]
  {
    if s != [] {
      var n := |s| - 1;
      AssignAt(tcpu, s[..n], c);
      assert s == s[..n] + [s[n]];
    }
  }

  lemma SentNone(tcpu: map<nat, nat>, cur: nat, c: nat)
    ensures Sent([], cur) == [] && Assign(tcpu, [], c) == tcpu
  {
  }

  lemma SentStep(s: seq<nat>, t: nat, cur: nat)
    ensures Sent(s + [t], cur) == Sent(s, cur) + if t == cur then [] else [t]
  {
    assert (s + [t])[..|s|] == s;
  }

  lemma AssignStep(tcpu: map<nat, nat>, s: seq<nat>, t: nat, c: nat)
    ensures Assign(tcpu, s + [t], c) == Assign(tcpu, s, c)[t := c]
  {
    assert (s + [t])[..|s|] == s;
  }

  /** A receiver gets threads at its tail and is not filled beyond the share. */
  predicate Received(before: seq<nat>, after: seq<nat>, share: nat) {
    before <= after && (|after| <= share || after == before)
  }

  /** Every queued thread's t_cpu names the queue's CPU. */
  predicate Owned(qs: seq<seq<nat>>, tcpu: map<nat, nat>) {
    forall j, t :: 0 <= j < |qs| && t in qs[j] ==> t in tcpu && tcpu[t] == j
  }

  predicate AllOn(s: seq<nat>, tcpu: map<nat, nat>, c: nat) {
    forall t :: t in s ==> t in tcpu && tcpu[t] == c
  }

  /** What the CPUs below n other than me were given, in CPU order: the new ends of their queues. */
  function Gains(before: seq<seq<nat>>, after: seq<seq<nat>>, me: nat, n: nat): seq<nat>
    requires n <= |before| == |after|
  {
    if n == 0 then []
    else Gains(before, after, me, n - 1) +
         if n - 1 == me || |after[n - 1]| < |before[n - 1]| then [] else after[n - 1][|before[n - 1]|..]
  }

  /** The CPUs are served in order: one gets threads only when every receiver before it has its share. */
  predicate InTurn(before: seq<seq<nat>>, after: seq<seq<nat>>, me: nat, share: nat, n: nat)
    requires n <= |before| == |after|
  {
    forall i, j :: 0 <= i < j < n && i != me && j != me && after[j] != before[j] ==> |after[i]| >= share
  }

  lemma {:induction false} GainsSame(before: seq<seq<nat>>, after: seq<seq<nat>>, after': seq<seq<nat>>, me: nat, n: nat)
    requires n <= |before| == |after| == |after'| && forall j :: 0 <= j < n && j != me ==> after'[j] == after[j]
    ensures Gains(before, after', me, n) == Gains(before, after, me, n)
  {
    if n > 0 {
      GainsSame(before, after, after', me, n - 1);
    }
  }

  lemma {:induction false} GainsEnd(before: seq<seq<nat>>, after: seq<seq<nat>>, me: nat, i: nat, n: nat)
    requires i <= n <= |before| == |after| && forall j :: i <= j < n && j != me ==> after[j] == before[j]
    ensures Gains(before, after, me, n) == Gains(before, after, me, i)
  {
    if i < n {
      GainsEnd(before, after, me, i, n - 1);
      assert n - 1 != me ==> after[n - 1][|before[n - 1]|..] == [];
    }
  }

  /** One more receiver, c, got the victims from p to p'. */
  lemma GainsStep(before: seq<seq<nat>>, now: seq<seq<nat>>, now': seq<seq<nat>>, me: nat, c: nat, cur: nat,
                  taken: seq<nat>, p: nat, p': nat)
    requires c < |before| == |now| == |now'| && c != me && now[c] == before[c] && p <= p' <= |taken|
    requires now' == now[c := now[c] + Sent(taken[p..p'], cur)]
    requires Gains(before, now, me, c) == Sent(taken[..p], cur)
    ensures Gains(before, now', me, c + 1) == Sent(taken[..p'], cur)
  {
    GainsSame(before, now, now', me, c);
    assert now'[c][|before[c]|..] == Sent(taken[p..p'], cur);
    SentAppend(taken[..p], taken[p..p'], cur);
    assert taken[..p] + taken[p..p'] == taken[..p'];
  }

  lemma {:induction false} SentAppend(a: seq<nat>, b: seq<nat>, cur: nat)
    ensures Sent(a + b, cur) == Sent(a, cur) + Sent(b, cur)
  {
    if b == [] {
      assert a + b == a;
    } else {
      var n := |b| - 1;
      SentAppend(a, b[..n], cur);
      assert (a + b)[..|a + b| - 1] == a + b[..n];
    }
  }

  lemma TurnKept(before: seq<seq<nat>>, now: seq<seq<nat>>, now': seq<seq<nat>>, me: nat, share: nat, c: nat)
    requires c < |before| == |now| == |now'| && InTurn(before, now, me, share, c)
    requires forall j :: 0 <= j < c && j != me ==> now'[j] == now[j]
    requires c == me || now'[c] == before[c] || forall j :: 0 <= j < c && j != me ==> |now[j]| >= share
    ensures InTurn(before, now', me, share, c + 1)
  {
  }

  lemma NothingDealt(qs: seq<seq<nat>>, now: seq<seq<nat>>, me: nat, share: nat, cur: nat)
    requires |now| == |qs|
    ensures Gains(qs, now, me, 0) == Sent([], cur) && InTurn(qs, now, me, share, 0)
  {
  }

  /** The CPUs from i on were given nothing. */
  lemma AllDealt(qs: seq<seq<nat>>, now: seq<seq<nat>>, me: nat, share: nat, i: nat)
    requires i <= |qs| == |now| && InTurn(qs, now, me, share, i) && forall j :: i <= j < |qs| && j != me ==> now[j] == qs[j]
    ensures Gains(qs, now, me, |qs|) == Gains(qs, now, me, i) && InTurn(qs, now, me, share, |qs|)
  {
    GainsEnd(qs, now, me, i, |qs|);
  }

  lemma SameDealt(qs: seq<seq<nat>>, now: seq<seq<nat>>, last: seq<seq<nat>>, me: nat, share: nat)
    requires |qs| == |now| == |last| && me < |qs| && last == now[me := last[me]]
    requires InTurn(qs, now, me, share, |qs|)
    ensures Gains(qs, last, me, |qs|) == Gains(qs, now, me, |qs|) && InTurn(qs, last, me, share, |qs|)
  {
    GainsSame(qs, now, last, me, |qs|);
  }

  class Cpus {
    const runqueue: array<seq<nat>>
    /** c_isidle, and whether an unidle interrupt was sent. */
    const isidle: array<bool>
    const ipi: array<bool>
    var tcpu: map<nat, nat>

    constructor (qs: seq<seq<nat>>, idle: seq<bool>, tcpu: map<nat, nat>)
      requires |idle| == |qs|
      ensures fresh(runqueue) && fresh(ipi) && runqueue[..] == qs && isidle[..] == idle && this.tcpu == tcpu
      ensures Valid() && forall j :: 0 <= j < ipi.Length ==> !ipi[j]
    {
      runqueue := new seq<nat>[|qs|](i requires 0 <= i < |qs| => qs[i]);
      isidle := new bool[|qs|](i requires 0 <= i < |qs| => idle[i]);
      ipi := new bool[|qs|](_ => false);
      this.tcpu := tcpu;
    }

    ghost predicate Valid() { isidle.Length == ipi.Length == runqueue.Length && ipi != isidle }

    /** CPU j gets an interrupt exactly when it idles and its queue has grown. */
    predicate Kicked(j: nat, idle: bool, before: bool, q: seq<nat>)
      requires j < ipi.Length && j < runqueue.Length
      reads ipi, runqueue
    {
      ipi[j] == (before || (idle && runqueue[j] != q))
    }

    /** The first loop: the queue lengths, one queue at a time. */
    method CountAll() returns (total: nat)
      ensures total == Total(runqueue[..])
    {
      total := 0;
      var i := 0;
      while i < runqueue.Length
        invariant i <= runqueue.Length && total == Total(runqueue[..i])
      {
        assert runqueue[..i + 1][..i] == runqueue[..i];
        total := total + |runqueue[i]|;
        i := i + 1;
      }
      assert runqueue[..i] == runqueue[..];
    }

    /** The second loop: toSend threads off the tail of the own queue, which never runs empty. */
    method TakeVictims(me: nat, toSend: nat) returns (victims: seq<nat>)
      requires me < runqueue.Length && toSend <= |runqueue[me]|
      modifies runqueue
      ensures runqueue[..] == old(runqueue[..])[me := old(runqueue[me])[..|old(runqueue[me])| - toSend]]
      ensures victims == old(runqueue[me])[|old(runqueue[me])| - toSend..]
    {
      ghost var q := runqueue[me];
      victims := [];
      var i := 0;
      assert q[..|q| - 0] == q;
      while i < toSend
        invariant i <= toSend
        invariant runqueue[me] == q[..|q| - i] && victims == q[|q| - i..]
        invariant forall j :: 0 <= j < runqueue.Length && j != me ==> runqueue[j] == old(runqueue[j])
      {
        var n := |runqueue[me]| - 1;
        var t := runqueue[me][n];
        runqueue[me] := runqueue[me][..n];
        victims := [t] + victims;
        i := i + 1;
      }
    }

    /**
     One receiver c: from the head of the victims until it has its share or enough were sent. The current
     thread is skipped: it goes to the end of the victims. p and p' count how many victims were dealt with.
     */
    method Fill(c: nat, share: nat, cur: nat, toSend: nat, victims: seq<nat>, ghost taken: seq<nat>, ghost p: nat)
        returns (rest: nat, vs: seq<nat>, ghost p': nat)
      requires Valid() && c < runqueue.Length && NoDup(taken) && p + toSend == |taken| && victims == Left(taken, p, cur)
      modifies runqueue, ipi, `tcpu
      ensures p <= p' <= |taken| && rest == |taken| - p' && vs == Left(taken, p', cur)
      ensures rest == 0 || |runqueue[c]| >= share
      ensures runqueue[c] == old(runqueue[c]) + Sent(taken[p..p'], cur)
      ensures Received(old(runqueue[c]), runqueue[c], share)
      ensures runqueue[..] == old(runqueue[..])[c := runqueue[c]]
      ensures tcpu == Assign(old(tcpu), Sent(taken[p..p'], cur), c)
      ensures ipi[..] == old(ipi[..])[c := ipi[c]] && Kicked(c, isidle[c], old(ipi[c]), old(runqueue[c]))
    {
      hide Sent, Assign, Left, NoDup;
      rest, vs, p' := toSend, victims, p;
      SentNone(tcpu, cur, c);
      assert taken[p..p'] == [];
      while |runqueue[c]| < share && rest > 0
        invariant p <= p' <= |taken| && rest == |taken| - p' && vs == Left(taken, p', cur)
        invariant runqueue[c] == old(runqueue[c]) + Sent(taken[p..p'], cur)
        invariant Received(old(runqueue[c]), runqueue[c], share)
        invariant runqueue[..] == old(runqueue[..])[c := runqueue[c]]
        invariant tcpu == Assign(old(tcpu), Sent(taken[p..p'], cur), c)
        invariant ipi[..] == old(ipi[..])[c := ipi[c]] && Kicked(c, isidle[c], old(ipi[c]), old(runqueue[c]))
        decreases rest
      {
        LeftStep(taken, p', cur);
        SentStep(taken[p..p'], taken[p'], cur);
        assert taken[p..p' + 1] == taken[p..p'] + [taken[p']];
        AssignStep(old(tcpu), Sent(taken[p..p'], cur), taken[p'], c);
        var t := vs[0];
        vs := vs[1..];
        rest, p' := rest - 1, p' + 1;
        if t == cur {
          assert Sent(taken[p..p' - 1], cur) + [] == Sent(taken[p..p' - 1], cur);
          vs := vs + [t];
        } else {
          tcpu := tcpu[t := c];
          runqueue[c] := runqueue[c] + [t];
          if isidle[c] {
            ipi[c] := true;
          }
        }
      }
    }

    /** The last loop: what is left of the victims goes back on the own queue. */
    method PutBack(me: nat, victims: seq<nat>)
      requires me < runqueue.Length
      modifies runqueue
      ensures runqueue[..] == old(runqueue[..])[me := old(runqueue[me]) + victims]
    {
      var vs := victims;
      while vs != []
        invariant runqueue[me] + vs == old(runqueue[me]) + victims
        invariant forall j :: 0 <= j < runqueue.Length && j != me ==> runqueue[j] == old(runqueue[j])
        decreases |vs|
      {
        assert vs == [vs[0]] + vs[1..];
        runqueue[me] := runqueue[me] + [vs[0]];
        vs := vs[1..];
      }
      assert runqueue[me] + [] == runqueue[me];
    }

    /** The third loop: the receivers in CPU order, until enough victims were sent. */
    method Deal(me: nat, cur: nat, share: nat, toSend: nat, victims: seq<nat>, ghost qs: seq<seq<nat>>, ghost taken: seq<nat>,
                ghost tcpu0: map<nat, nat>)
        returns (rest: nat, vs: seq<nat>, ghost p: nat)
      requires Valid() && NoDup(taken) && toSend == |taken| && victims == Left(taken, 0, cur)
      requires me < |qs| == runqueue.Length && Dealt(qs, tcpu0, me, share, cur, taken, runqueue[..], tcpu, 0, 0)
      modifies runqueue, ipi, `tcpu
      ensures p <= |taken| && rest == |taken| - p && vs == Left(taken, p, cur)
      ensures exists i :: 0 <= i <= |qs| && (i == |qs| || rest == 0) && Dealt(qs, tcpu0, me, share, cur, taken, runqueue[..], tcpu, p, i)
      ensures forall j :: 0 <= j < |qs| && j != me ==> Kicked(j, isidle[j], old(ipi[j]), qs[j])
      ensures ipi[me] == old(ipi[me])
    {
      hide Dealt, Left, Sent, Assign, NoDup, Received;
      rest, vs, p := toSend, victims, 0;
      assert forall j :: 0 <= j < |qs| && j != me ==> runqueue[j] == qs[j] by {
        Untouched(qs, tcpu0, me, share, cur, taken, runqueue[..], tcpu, 0, 0);
      }
      var i := 0;
      while i < runqueue.Length && rest > 0
        invariant i <= runqueue.Length && p <= |taken| && rest == |taken| - p && vs == Left(taken, p, cur)
        invariant Dealt(qs, tcpu0, me, share, cur, taken, runqueue[..], tcpu, p, i)
        invariant forall j :: 0 <= j < |qs| && j != me ==> Kicked(j, isidle[j], old(ipi[j]), qs[j])
        invariant ipi[me] == old(ipi[me])
      {
        ghost var before, tcpu1, p0 := runqueue[..], tcpu, p;
        Untouched(qs, tcpu0, me, share, cur, taken, before, tcpu1, p0, i);
        if i == me {
          DealtMyself(qs, tcpu0, me, share, cur, taken, before, tcpu, p);
        } else {
          rest, vs, p := Fill(i, share, cur, rest, vs, taken, p);
          DealtFill(qs, tcpu0, me, share, cur, taken, before, tcpu1, p0, i, runqueue[..], tcpu, p);
        }
        i := i + 1;
      }
    }

    /** thread_consider_migration, called in the context of thread cur on CPU me. */
    method ConsiderMigration(me: nat, cur: nat)
      requires Valid() && me < runqueue.Length && NoDup(runqueue[me]) && Owned(runqueue[..], tcpu)
      modifies runqueue, ipi, `tcpu
      ensures forall t :: Everybody(runqueue[..])[t] == old(Everybody(runqueue[..]))[t]
      ensures Owned(runqueue[..], tcpu)
      ensures cur in old(tcpu) ==> cur in tcpu && tcpu[cur] == old(tcpu)[cur]
      ensures var share := Share(old(Total(runqueue[..])), runqueue.Length);
              && (|old(runqueue[me])| < share ==> runqueue[..] == old(runqueue[..]) && tcpu == old(tcpu))
              && (|old(runqueue[me])| >= share ==>
                    && runqueue[me] == Kept(old(runqueue[me]), share, cur)
                    && Gains(old(runqueue[..]), runqueue[..], me, runqueue.Length) == Sent(old(runqueue[me])[share..], cur)
                    && InTurn(old(runqueue[..]), runqueue[..], me, share, runqueue.Length))
              && (forall j :: 0 <= j < runqueue.Length && j != me ==> Received(old(runqueue[j]), runqueue[j], share))
      ensures forall j :: 0 <= j < runqueue.Length && j != me ==> Kicked(j, isidle[j], old(ipi[j]), old(runqueue[j]))
      ensures ipi[me] == old(ipi[me])
    {
      hide Everybody, Total, Share, Owned, Along, Dealt, Left, Kept, Sent, Assign, Gains, InTurn;
      ghost var qs := runqueue[..];
      var numcpus := runqueue.Length;
      var total := CountAll();
      var share := Share(total, numcpus);
      if |runqueue[me]| < share {
        return;
      }
      var toSend := |runqueue[me]| - share;
      ghost var q := runqueue[me];
      var victims := TakeVictims(me, toSend);
      ghost var taken := victims;
      Start(qs, tcpu, me, q, share, cur, runqueue[..]);
      StartDealt(qs, tcpu, me, share, cur, victims, runqueue[..]);
      ghost var p;
      toSend, victims, p := Deal(me, cur, share, toSend, victims, qs, taken, old(tcpu));
      ghost var after := runqueue[..];
      ghost var i :| 0 <= i <= |qs| && (i == |qs| || toSend == 0) && Dealt(qs, old(tcpu), me, share, cur, taken, after, tcpu, p, i);
      DealtAll(qs, old(tcpu), me, share, cur, taken, after, tcpu, p, i);
      PutBack(me, victims);
      SameDealt(qs, after, runqueue[..], me, share);
      Finish(qs, old(tcpu), me, share, cur, taken, after, tcpu, p, runqueue[..]);
    }
  }

  // ---------------------------------------------------------------- the state between two receivers

  /** Every thread is still queued as often as before, on a queue or among the victims. */
  ghost predicate Conserved(qs: seq<seq<nat>>, now: seq<seq<nat>>, left: seq<nat>) {
    Total(now) + |left| == Total(qs) && forall t :: Everybody(now)[t] + multiset(left)[t] == Everybody(qs)[t]
  }

  /** How the queues stand after the first p victims were dealt with. */
  ghost predicate Along(qs: seq<seq<nat>>, tcpu0: map<nat, nat>, me: nat, share: nat, cur: nat, taken: seq<nat>,
                        now: seq<seq<nat>>, tcpu: map<nat, nat>, p: nat)
  {
    && |now| == |qs| && me < |qs| && p <= |taken| && NoDup(qs[me]) && |qs[me]| >= share && taken == qs[me][share..]
    && now[me] == qs[me][..share]
    && Conserved(qs, now, Left(taken, p, cur))
    && Owned(now, tcpu) && AllOn(Left(taken, p, cur), tcpu, me)
    && (cur in tcpu0 ==> cur in tcpu && tcpu[cur] == tcpu0[cur])
    && (forall j :: 0 <= j < |qs| && j != me ==> Received(qs[j], now[j], share))
  }

  /** How they stand when the receivers below i have been served: the others are untouched, and nobody was passed over. */
  ghost predicate Dealt(qs: seq<seq<nat>>, tcpu0: map<nat, nat>, me: nat, share: nat, cur: nat, taken: seq<nat>,
                        now: seq<seq<nat>>, tcpu: map<nat, nat>, p: nat, i: nat)
  {
    && Along(qs, tcpu0, me, share, cur, taken, now, tcpu, p) && i <= |qs|
    && (forall j :: i <= j < |qs| && j != me ==> now[j] == qs[j])
    && (forall j :: 0 <= j < i && j != me ==> p == |taken| || |now[j]| >= share)
    && Gains(qs, now, me, i) == Sent(taken[..p], cur) && InTurn(qs, now, me, share, i)
  }

  lemma Untouched(qs: seq<seq<nat>>, tcpu0: map<nat, nat>, me: nat, share: nat, cur: nat, taken: seq<nat>,
                  now: seq<seq<nat>>, tcpu: map<nat, nat>, p: nat, i: nat)
    requires Dealt(qs, tcpu0, me, share, cur, taken, now, tcpu, p, i)
    ensures |now| == |qs| && p <= |taken| && NoDup(taken) && forall j :: i <= j < |qs| && j != me ==> now[j] == qs[j]
  {
    Halves(qs[me], share);
    hide Gains, Sent, Conserved, Owned;
  }

  lemma DealtMyself(qs: seq<seq<nat>>, tcpu0: map<nat, nat>, me: nat, share: nat, cur: nat, taken: seq<nat>,
                    now: seq<seq<nat>>, tcpu: map<nat, nat>, p: nat)
    requires Dealt(qs, tcpu0, me, share, cur, taken, now, tcpu, p, me) && me < |qs|
    ensures Dealt(qs, tcpu0, me, share, cur, taken, now, tcpu, p, me + 1)
  {
    GainsEnd(qs, now, me, me, me + 1);
    hide Along, Gains, Sent;
  }

  lemma DealtFill(qs: seq<seq<nat>>, tcpu0: map<nat, nat>, me: nat, share: nat, cur: nat, taken: seq<nat>,
                  before: seq<seq<nat>>, tcpu1: map<nat, nat>, p: nat, c: nat, now: seq<seq<nat>>, tcpu: map<nat, nat>, p': nat)
    requires Dealt(qs, tcpu0, me, share, cur, taken, before, tcpu1, p, c) && c < |qs| && c != me && p < |taken|
    requires p <= p' <= |taken| && |now| == |before| && c < |before|
    requires now == before[c := before[c] + Sent(taken[p..p'], cur)] && Received(before[c], now[c], share)
    requires tcpu == Assign(tcpu1, Sent(taken[p..p'], cur), c)
    requires p' == |taken| || |now[c]| >= share
    ensures Dealt(qs, tcpu0, me, share, cur, taken, now, tcpu, p', c + 1)
  {
    Untouched(qs, tcpu0, me, share, cur, taken, before, tcpu1, p, c);
    FillAlong(qs, tcpu0, me, share, cur, taken, before, tcpu1, p, c, now, tcpu, p');
    hide Along, Sent, Received, Assign, NoDup;
    Served(qs, before, now, me, share, c, Sent(taken[p..p'], cur), |taken|, p, p');
    hide InTurn;
    GainsStep(qs, before, now, me, c, cur, taken, p, p');
    hide Gains;
  }

  /** Receiver c is served; the queues behind it are untouched, and it is full unless nothing is left. */
  lemma Served(qs: seq<seq<nat>>, before: seq<seq<nat>>, now: seq<seq<nat>>, me: nat, share: nat, c: nat, sent: seq<nat>,
               all: nat, p: nat, p': nat)
    requires c < |qs| == |before| && c != me && now == before[c := before[c] + sent] && p < all
    requires forall j :: c <= j < |qs| && j != me ==> before[j] == qs[j]
    requires forall j :: 0 <= j < c && j != me ==> p == all || |before[j]| >= share
    requires InTurn(qs, before, me, share, c) && (p' == all || |now[c]| >= share)
    ensures forall j :: c + 1 <= j < |qs| && j != me ==> now[j] == qs[j]
    ensures forall j :: 0 <= j < c + 1 && j != me ==> p' == all || |now[j]| >= share
    ensures InTurn(qs, now, me, share, c + 1)
  {
    TurnKept(qs, before, now, me, share, c);
    hide InTurn;
  }

  /** At the end every victim was dealt with, in order, and the CPUs behind the last one served were given nothing. */
  lemma DealtAll(qs: seq<seq<nat>>, tcpu0: map<nat, nat>, me: nat, share: nat, cur: nat, taken: seq<nat>,
                 now: seq<seq<nat>>, tcpu: map<nat, nat>, p: nat, i: nat)
    requires Dealt(qs, tcpu0, me, share, cur, taken, now, tcpu, p, i) && (i == |qs| || p == |taken|)
    requires share == Share(Total(qs), |qs|)
    ensures Along(qs, tcpu0, me, share, cur, taken, now, tcpu, p) && p == |taken|
    ensures Gains(qs, now, me, |qs|) == Sent(taken, cur) && InTurn(qs, now, me, share, |qs|)
  {
    AllDealt(qs, now, me, share, i);
    Capacity(qs, tcpu0, me, share, cur, taken, now, tcpu, p);
    assert taken[..|taken|] == taken;
    hide Along, Gains, Sent, Share, Total;
  }

  lemma Halves(q: seq<nat>, k: nat)
    requires NoDup(q) && k <= |q|
    ensures NoDup(q[k..]) && (forall t :: t in q[..k] ==> t in q && t !in q[k..]) && (forall t :: t in q[k..] ==> t in q)
  {
    forall t | t in q[..k] ensures t in q && t !in q[k..] {
      var i :| 0 <= i < k && q[i] == t;
    }
  }

  lemma Start(qs: seq<seq<nat>>, tcpu: map<nat, nat>, me: nat, q: seq<nat>, share: nat, cur: nat, now: seq<seq<nat>>)
    requires me < |qs| && q == qs[me] && share <= |q| && NoDup(q) && Owned(qs, tcpu)
    requires now == qs[me := q[..share]]
    ensures NoDup(q[share..]) && Left(q[share..], 0, cur) == q[share..]
    ensures Along(qs, tcpu, me, share, cur, q[share..], now, tcpu, 0)
  {
    hide Everybody, Total;
    Halves(q, share);
    hide NoDup;
    var taken := q[share..];
    assert taken[..0] == [] && taken[0..] == taken;
    assert Left(taken, 0, cur) == taken;
    hide Left;
    UpdateTotal(qs, me, q[..share]);
    assert q == q[..share] + taken;
    forall t | true ensures Everybody(now)[t] + multiset(taken)[t] == Everybody(qs)[t] {
      UpdateEverybody(qs, me, q[..share], t);
    }
    assert AllOn(taken, tcpu, me) by { assert AllOn(q, tcpu, me); }
    assert Owned(now, tcpu) by { assert forall t :: t in now[me] ==> t in qs[me]; }
  }

  lemma StartDealt(qs: seq<seq<nat>>, tcpu: map<nat, nat>, me: nat, share: nat, cur: nat, taken: seq<nat>, now: seq<seq<nat>>)
    requires Along(qs, tcpu, me, share, cur, taken, now, tcpu, 0) && forall j :: 0 <= j < |qs| && j != me ==> now[j] == qs[j]
    ensures Dealt(qs, tcpu, me, share, cur, taken, now, tcpu, 0, 0)
  {
    assert taken[..0] == [];
    NothingDealt(qs, now, me, share, cur);
    hide Conserved, Owned, NoDup;
  }

  lemma FillAlong(qs: seq<seq<nat>>, tcpu0: map<nat, nat>, me: nat, share: nat, cur: nat, taken: seq<nat>,
                  before: seq<seq<nat>>, tcpu1: map<nat, nat>, p: nat, c: nat,
                  now: seq<seq<nat>>, tcpu: map<nat, nat>, p': nat)
    requires Along(qs, tcpu0, me, share, cur, taken, before, tcpu1, p) && c < |qs| && c != me && before[c] == qs[c]
    requires p <= p' <= |taken| && |now| == |before|
    requires now == before[c := before[c] + Sent(taken[p..p'], cur)] && Received(before[c], now[c], share)
    requires tcpu == Assign(tcpu1, Sent(taken[p..p'], cur), c)
    ensures Along(qs, tcpu0, me, share, cur, taken, now, tcpu, p')
  {
    Halves(qs[me], share);
    hide Owned, AllOn, Sent, Assign, Left, NoDup, Received, Conserved;
    var sent := Sent(taken[p..p'], cur);
    ConservedAfter(qs, before, c, now, taken, p, p', cur);
    AssignAt(tcpu1, sent, c);
    SentMembers(taken[p..p'], cur);
    OwnedAfter(before, tcpu1, me, taken, p, p', cur, c, now, tcpu);
  }

  lemma ConservedAfter(qs: seq<seq<nat>>, before: seq<seq<nat>>, c: nat, now: seq<seq<nat>>, taken: seq<nat>, p: nat, p': nat, cur: nat)
    requires c < |before| && NoDup(taken) && p <= p' <= |taken| && Conserved(qs, before, Left(taken, p, cur))
    requires now == before[c := before[c] + Sent(taken[p..p'], cur)]
    ensures Conserved(qs, now, Left(taken, p', cur))
  {
    hide Everybody, Total, Sent, Left, NoDup;
    UpdateTotal(before, c, now[c]);
    LeftSizes(taken, p, p', cur);
    forall t | true ensures Everybody(now)[t] + multiset(Left(taken, p', cur))[t] == Everybody(qs)[t] {
      FillCounts(before, c, Sent(taken[p..p'], cur), now, taken, p, p', cur, t);
    }
  }

  lemma FillCounts(before: seq<seq<nat>>, c: nat, sent: seq<nat>, now: seq<seq<nat>>, taken: seq<nat>, p: nat, p': nat, cur: nat, t: nat)
    requires c < |before| && now == before[c := before[c] + sent] && NoDup(taken) && p <= p' <= |taken|
    requires sent == Sent(taken[p..p'], cur)
    ensures Everybody(now)[t] + multiset(Left(taken, p', cur))[t] == Everybody(before)[t] + multiset(Left(taken, p, cur))[t]
  {
    hide Everybody, Sent, Left;
    UpdateEverybody(before, c, now[c], t);
    LeftCounts(taken, p, p', cur, t);
  }

  /** What is sent is exactly what leaves the victims. */
  lemma LeftCounts(taken: seq<nat>, p: nat, p': nat, cur: nat, t: nat)
    requires NoDup(taken) && p <= p' <= |taken|
    ensures multiset(Sent(taken[p..p'], cur))[t] + multiset(Left(taken, p', cur))[t] == multiset(Left(taken, p, cur))[t]
  {
    hide Sent;
    var part := taken[p..p'];
    SentCounts(part, cur, t);
    assert taken[p..] == part + taken[p'..];
    assert taken[..p'] == taken[..p] + part;
    assert cur in taken[..p] ==> cur !in part;
  }

  lemma LeftSizes(taken: seq<nat>, p: nat, p': nat, cur: nat)
    requires NoDup(taken) && p <= p' <= |taken|
    ensures |Sent(taken[p..p'], cur)| + |Left(taken, p', cur)| == |Left(taken, p, cur)|
  {
    hide Sent;
    var part := taken[p..p'];
    SentCounts(part, cur, 0);
    assert taken[p..] == part + taken[p'..];
    assert taken[..p'] == taken[..p] + part;
    assert cur in taken[..p] ==> cur !in part;
  }

  lemma OwnedAfter(before: seq<seq<nat>>, tcpu1: map<nat, nat>, me: nat, taken: seq<nat>, p: nat, p': nat, cur: nat,
                   c: nat, now: seq<seq<nat>>, tcpu: map<nat, nat>)
    requires NoDup(taken) && p <= p' <= |taken| && c < |before| && me < |before| && c != me
    requires Owned(before, tcpu1) && AllOn(Left(taken, p, cur), tcpu1, me)
    requires forall t :: t in before[me] ==> t !in taken
    requires now == before[c := before[c] + Sent(taken[p..p'], cur)]
    requires tcpu == Assign(tcpu1, Sent(taken[p..p'], cur), c)
    ensures Owned(now, tcpu) && AllOn(Left(taken, p', cur), tcpu, me)
  {
    hide Assign, Owned;
    var sent := Sent(taken[p..p'], cur);
    AssignAt(tcpu1, sent, c);
    SentMembers(taken[p..p'], cur);
    hide Sent;
    assert forall t :: t in sent ==> t in taken[p..] && t in taken;
    forall t | t in sent ensures t in tcpu1 && tcpu1[t] == me {
      assert t in Left(taken, p, cur);
    }
    SentOwned(before, tcpu1, me, taken, sent, c, now, tcpu);
    forall t | t in Left(taken, p', cur) ensures t in tcpu && tcpu[t] == me {
      LeftMember(taken, p, p', cur, t);
    }
  }

  /** Threads that went from the victims to the queue of c now belong to c, and no other queue held them. */
  lemma SentOwned(before: seq<seq<nat>>, tcpu1: map<nat, nat>, me: nat, taken: seq<nat>, sent: seq<nat>, c: nat,
                  now: seq<seq<nat>>, tcpu: map<nat, nat>)
    requires c < |before| && me < |before| && c != me && Owned(before, tcpu1) && now == before[c := before[c] + sent]
    requires forall t :: t in before[me] ==> t !in taken
    requires forall t :: t in sent ==> t in taken && t in tcpu1 && tcpu1[t] == me
    requires forall t :: t in tcpu <==> t in tcpu1 || t in sent
    requires forall t :: t in tcpu ==> tcpu[t] == if t in sent then c else tcpu1[t]
    ensures Owned(now, tcpu)
  {
    forall j, t | 0 <= j < |now| && t in now[j] ensures t in tcpu && tcpu[t] == j {
      assert j == c ==> t in before[c] || t in sent;
      assert j != c ==> t in before[j];
    }
  }

  lemma LeftMember(taken: seq<nat>, p: nat, p': nat, cur: nat, t: nat)
    requires NoDup(taken) && p <= p' <= |taken| && t in Left(taken, p', cur)
    ensures t in Left(taken, p, cur) && (t == cur || t !in taken[p..p'])
  {
    assert taken[p..] == taken[p..p'] + taken[p'..];
    assert taken[..p'] == taken[..p] + taken[p..p'];
  }

  /** The receivers have room for everything: the share times the number of CPUs covers all threads. */
  lemma Capacity(qs: seq<seq<nat>>, tcpu0: map<nat, nat>, me: nat, share: nat, cur: nat, taken: seq<nat>,
                 now: seq<seq<nat>>, tcpu: map<nat, nat>, p: nat)
    requires Along(qs, tcpu0, me, share, cur, taken, now, tcpu, p) && share == Share(Total(qs), |qs|)
    requires forall j :: 0 <= j < |qs| && j != me ==> p == |taken| || |now[j]| >= share
    ensures p == |taken|
  {
    hide Everybody, Total, Owned, AllOn;
    assert |Left(taken, p, cur)| >= |taken| - p;
    if p < |taken| {
      AllFull(now, share);
      ShareCovers(Total(qs), |qs|);
      assert false;
    }
  }

  lemma Finish(qs: seq<seq<nat>>, tcpu0: map<nat, nat>, me: nat, share: nat, cur: nat, taken: seq<nat>,
               now: seq<seq<nat>>, tcpu: map<nat, nat>, p: nat, last: seq<seq<nat>>)
    requires Along(qs, tcpu0, me, share, cur, taken, now, tcpu, p) && p == |taken|
    requires last == now[me := now[me] + Left(taken, p, cur)]
    ensures forall t :: Everybody(last)[t] == Everybody(qs)[t]
    ensures cur in tcpu0 ==> cur in tcpu && tcpu[cur] == tcpu0[cur]
    ensures Owned(last, tcpu) && last[me] == Kept(qs[me], share, cur)
    ensures forall j :: 0 <= j < |qs| && j != me ==> Received(qs[j], last[j], share)
  {
    hide Everybody, Total, NoDup, Owned, AllOn, Received, Conserved, Left, Skipped;
    NothingLeft(taken, cur);
    ConservedBack(qs, now, me, Left(taken, p, cur), last);
    OwnedPlus(now, tcpu, me, Left(taken, p, cur), last);
  }

  lemma NothingLeft(taken: seq<nat>, cur: nat)
    ensures Left(taken, |taken|, cur) == Skipped(taken, cur)
  {
    assert taken[..|taken|] == taken && taken[|taken|..] == [];
  }

  lemma ConservedBack(qs: seq<seq<nat>>, now: seq<seq<nat>>, me: nat, left: seq<nat>, last: seq<seq<nat>>)
    requires Conserved(qs, now, left) && me < |now| && last == now[me := now[me] + left]
    ensures forall t :: Everybody(last)[t] == Everybody(qs)[t]
  {
    hide Everybody, Total;
    forall t | true ensures Everybody(last)[t] == Everybody(qs)[t] {
      UpdateEverybody(now, me, last[me], t);
    }
  }

  lemma OwnedPlus(now: seq<seq<nat>>, tcpu: map<nat, nat>, me: nat, extra: seq<nat>, last: seq<seq<nat>>)
    requires me < |now| && Owned(now, tcpu) && AllOn(extra, tcpu, me) && last == now[me := now[me] + extra]
    ensures Owned(last, tcpu)
  {
    forall j, t | 0 <= j < |last| && t in last[j] ensures t in tcpu && tcpu[t] == j {
      assert j == me ==> t in now[me] || t in extra;
      assert j != me ==> t in now[j];
    }
  }
}
