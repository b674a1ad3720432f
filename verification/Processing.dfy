// What one processing call, and one service call, amount to: the list of events they
// go through, fixed except for how far the hardware moves before each poll.
module Processing {
  import opened Plan
  import opened Ring
  import opened QueueSpec
  import opened QueueInv
  import opened QueueRuns
  import opened Aftermath

  predicate IsPoll(tr: seq<Event>) {
    |tr| == 2 && tr[0].Hardware? && tr[1].Complete?
  }

  /** In the polling modes a completion pass over what the hardware has returned by
      then; in the others nothing. */
  ghost predicate Polled(s: State, tr: seq<Event>, t: State) {
    if s.conf.polling then
      IsPoll(tr) && s.hardware + tr[0].n <= s.published && s.conf.rngsz > 0
      && t == CompleteStep(HardwareStep(s, tr[0].n))
    else tr == [] && t == s
  }

  /** Rounds of the processing loop: an issue pass whenever there is work and space, and
      one poll before it when the ring is found full. */
  ghost predicate Rounds(s: State, tr: seq<Event>, t: State)
    decreases |tr|
  {
    var n := |tr|;
    if n == 0 then t == s
    else if tr[n - 1].Issue? then
      exists u :: Rounds(s, tr[..n - 1], u) && IssueEnabled(u) && t == IssueStep(u)
    else
      && n >= 2 && (n == 2 || tr[n - 3].Issue?)
      && exists u :: Rounds(s, tr[..n - 2], u) && u.work != [] && u.avail == 0 && u.conf.polling
                     && Polled(u, tr[n - 2..], t)
  }

  /** The hardware is told about what was produced, if anything was, and polled. */
  ghost predicate Told(s: State, tr: seq<Event>, t: State) {
    if s.published == s.produced then tr == [] && t == s
    else |tr| > 0 && tr[0].Publish? && Polled(PublishStep(s), tr[1..], t)
  }

  /** The parts of a processing call, and the states after the first two. */
  datatype Parts = Parts(first: seq<Event>, rounds: seq<Event>, last: seq<Event>, begun: State, ended: State)

  /** A poll, rounds until there is no work or no space, and the doorbell. */
  ghost predicate InParts(s: State, tr: seq<Event>, t: State, p: Parts) {
    && tr == p.first + p.rounds + p.last
    && Polled(s, p.first, p.begun) && Rounds(p.begun, p.rounds, p.ended) && Told(p.ended, p.last, t)
    && (p.ended.work == [] || p.ended.avail == 0)
  }

  /** A processing call: a completion pass while a stop waits, nothing on a queue that is
      not online, the whole of it otherwise. */
  ghost predicate Processed(s: State, tr: seq<Event>, t: State) {
    if s.stopWait then tr == [Complete] && t == CompleteStep(s)
    else if !s.online then tr == [] && t == s
    else exists p :: InParts(s, tr, t, p)
  }

  /** A service call: in the polling modes a processing call; on an interrupt a
      completion pass, followed by one exactly when requests are counted as queued. */
  ghost predicate Serviced(s: State, tr: seq<Event>, t: State) {
    if s.conf.polling then Processed(s, tr, t)
    else if CompleteStep(s).workReqPend == 0 then tr == [Complete] && t == CompleteStep(s)
    else |tr| > 0 && tr[0].Complete? && Processed(CompleteStep(s), tr[1..], t)
  }

  // ------------------------------------------------------------ building them

  lemma RoundsNone(s: State)
    ensures Rounds(s, [], s)
  {
  }

  lemma RoundIssue(s: State, tr: seq<Event>, u: State)
    requires Rounds(s, tr, u) && IssueEnabled(u)
    ensures Rounds(s, tr + [Event.Issue], IssueStep(u))
  {
    hide IssueStep, IssueEnabled;
    assert (tr + [Event.Issue])[..|tr|] == tr;
  }

  /** A round that found the ring full: nothing at all without polling. */
  lemma RoundPoll(s: State, tr: seq<Event>, u: State, poll: seq<Event>, t: State)
    requires Rounds(s, tr, u) && (tr == [] || tr[|tr| - 1].Issue?) && u.work != [] && u.avail == 0
    requires Polled(u, poll, t)
    ensures Rounds(s, tr + poll, t)
  {
    hide CompleteStep, HardwareStep, IssueStep, IssueEnabled;
    if u.conf.polling {
      assert (tr + poll)[..|tr|] == tr && (tr + poll)[|tr|..] == poll;
    } else {
      assert tr + poll == tr;
    }
  }

  lemma ToldNothing(s: State)
    requires s.published == s.produced
    ensures Told(s, [], s)
  {
  }

  // ------------------------------------------------------------ they are runs

  lemma PollTraced(s: State, tr: seq<Event>, t: State)
    requires Inv(s) && s.online && Polled(s, tr, t)
    ensures Traced(s, tr, t) && Inv(t)
    ensures t.online && t.stopWait == s.stopWait && t.conf == s.conf && t.work == s.work
    ensures t.produced == s.produced && t.published == s.published && t.avail >= s.avail
  {
    hide Inv, CompleteStep, HardwareStep;
    InvConf(s);
    if s.conf.polling {
      var n := tr[0].n;
      TwoSteps(s, n);
      assert tr == [Hardware(n), Complete];
      PollKeeps(s, n);
    } else {
      TraceNothing(s);
    }
  }

  lemma InvConf(s: State)
    requires Inv(s)
    ensures ConfOk(s.conf)
  {
  }

  lemma PollKeeps(s: State, n: nat)
    requires Inv(s) && s.hardware + n <= s.published && s.conf.rngsz > 0
    ensures var t := CompleteStep(HardwareStep(s, n));
            && Inv(t) && t.online == s.online && t.stopWait == s.stopWait && t.conf == s.conf && t.work == s.work
            && t.produced == s.produced && t.published == s.published && t.avail >= s.avail
  {
    hide Inv, CompleteStep;
    HardwareKeeps(s, n);
    CompleteKeeps(HardwareStep(s, n));
    CompleteFrame(HardwareStep(s, n));
    AvailGrows(HardwareStep(s, n));
  }

  lemma AvailGrows(s: State)
    ensures CompleteStep(s).avail >= s.avail
  {
    hide Retire, Tell;
  }

  lemma OneIssue(u: State)
    requires Inv(u) && IssueEnabled(u)
    ensures Inv(IssueStep(u)) && Enabled(u, Event.Issue) && Step(u, Event.Issue) == IssueStep(u)
    ensures IssueStep(u).produced > u.produced && IssueStep(u).published == u.published
    ensures IssueStep(u).online && !IssueStep(u).stopWait && IssueStep(u).conf == u.conf
    ensures ConfOk(u.conf)
  {
    hide EpochInv, OutcomeInv, CountInv, RingInv, IssueXfers, WriteRing, PassDescs, CbInv, LinkInv, Linked;
    IssueKeeps(u);
    IssuePass(u);
  }

  /** Rounds are a run; they publish nothing, and produce something unless there are
      none or the ring was full to begin with. */
  lemma {:induction false} RoundsTraced(s: State, tr: seq<Event>, t: State)
    requires Inv(s) && s.online && !s.stopWait && Rounds(s, tr, t)
    ensures Traced(s, tr, t) && Inv(t) && t.online && !t.stopWait && t.conf == s.conf
    ensures t.published == s.published && t.produced >= s.produced
    ensures |tr| > 0 && s.avail > 0 ==> t.produced > s.produced
    decreases |tr|
  {
    hide Inv, IssueStep, Polled, Traced, Step, Enabled;
    InvConf(s);
    var n := |tr|;
    if n == 0 {
      TraceNothing(s);
    } else if tr[n - 1].Issue? {
      var u :| Rounds(s, tr[..n - 1], u) && IssueEnabled(u) && t == IssueStep(u);
      RoundsTraced(s, tr[..n - 1], u);
      OneIssue(u);
      TraceOne(s, tr[..n - 1], u, Event.Issue);
      assert tr == tr[..n - 1] + [Event.Issue];
    } else {
      var u :| Rounds(s, tr[..n - 2], u) && u.work != [] && u.avail == 0 && u.conf.polling && Polled(u, tr[n - 2..], t);
      RoundsTraced(s, tr[..n - 2], u);
      PollTraced(u, tr[n - 2..], t);
      TraceJoin(s, tr[..n - 2], u, tr[n - 2..], t);
      assert tr == tr[..n - 2] + tr[n - 2..];
      if n == 2 {
        assert u == s;
      }
    }
  }

  lemma ToldTraced(s: State, tr: seq<Event>, t: State)
    requires Inv(s) && s.online && Told(s, tr, t) && s.published <= s.produced
    ensures Traced(s, tr, t) && Inv(t) && t.published == t.produced == s.produced && t.work == s.work
    ensures !s.conf.polling ==> t.avail == s.avail
  {
    hide Inv, Traced, Polled;
    InvConf(s);
    if s.published == s.produced {
      TraceNothing(s);
    } else {
      PublishKeeps(s);
      TraceNothing(s);
      TraceOne(s, [], s, Event.Publish);
      assert [] + [Event.Publish] == [Event.Publish] && tr == [Event.Publish] + tr[1..];
      PollTraced(PublishStep(s), tr[1..], t);
      TraceJoin(s, [Event.Publish], PublishStep(s), tr[1..], t);
      NoPoll(PublishStep(s), tr[1..], t);
    }
  }

  lemma NoPoll(s: State, tr: seq<Event>, t: State)
    requires Polled(s, tr, t)
    ensures !s.conf.polling ==> t == s && tr == []
    ensures s.conf.polling ==> IsPoll(tr)
  {
  }

  /** A processing call is a run. It ends with everything published. On an online queue
      that no stop waits for it starts with a poll in the polling modes; it issues and
      publishes if there was work and space; and it leaves work only when the ring was
      full as the loop ended, before the last poll. */
  lemma PartsTraced(s: State, tr: seq<Event>, t: State, p: Parts)
    requires Inv(s) && Quiet(s) && s.online && !s.stopWait && InParts(s, tr, t, p)
    ensures Traced(s, tr, t) && Inv(t) && Quiet(t)
    ensures s.conf.polling ==> |tr| >= 2 && tr[0].Hardware? && tr[1].Complete?
    ensures s.work != [] && s.avail > 0 ==> t.published > s.published
    ensures t.work == p.ended.work && (t.work == [] || p.ended.avail == 0)
    ensures !s.conf.polling ==> t.avail == p.ended.avail
  {
    hide Inv, Traced, Polled, Rounds, Told;
    PollTraced(s, p.first, p.begun);
    NoPoll(s, p.first, p.begun);
    RoundsTraced(p.begun, p.rounds, p.ended);
    ToldTraced(p.ended, p.last, t);
    TraceJoin(s, p.first, p.begun, p.rounds, p.ended);
    TraceJoin(s, p.first + p.rounds, p.ended, p.last, t);
    if |p.rounds| == 0 {
      NoRounds(p.begun, p.rounds, p.ended);
    }
  }

  lemma NoRounds(s: State, tr: seq<Event>, t: State)
    requires Rounds(s, tr, t) && |tr| == 0
    ensures t == s
  {
  }

  /** What a processing call does, whatever the state it finds. */
  lemma ProcessedMeans(s: State, tr: seq<Event>, t: State)
    requires Inv(s) && Quiet(s) && Processed(s, tr, t)
    ensures Traced(s, tr, t) && Inv(t) && Quiet(t)
    ensures s.stopWait ==> tr == [Complete]
    ensures !s.online ==> tr == []
    ensures s.online && !s.stopWait && !s.conf.polling ==> t.work == [] || t.avail == 0
    ensures s.online && !s.stopWait && s.conf.polling ==> |tr| >= 2 && tr[0].Hardware? && tr[1].Complete?
    ensures s.online && !s.stopWait && s.work != [] && s.avail > 0 ==> t.published > s.published
  {
    hide Traced, EpochInv, MapInv, CountInv, RingInv, ListInv, BookInv, InParts, CompleteStep;
    InvConf(s);
    TraceNothing(s);
    if s.stopWait {
      assert s.online;
      TraceOne(s, [], s, Complete);
      assert [] + [Complete] == [Complete];
      CompleteKeeps(s);
      CompleteFrame(s);
    } else if s.online {
      var p :| InParts(s, tr, t, p);
      PartsTraced(s, tr, t, p);
    }
  }

  /** Work is left in a polling mode only if the ring was full when the loop ended. */
  lemma LeftOver(s: State, tr: seq<Event>, t: State)
    requires Inv(s) && Quiet(s) && s.online && !s.stopWait && Processed(s, tr, t) && t.work != []
    ensures exists p :: InParts(s, tr, t, p) && p.ended.avail == 0 && p.ended.work == t.work
  {
    hide Inv, Traced, InParts;
    var p :| InParts(s, tr, t, p);
    PartsTraced(s, tr, t, p);
  }

  /** The same of a service call. With a stop waiting an interrupt collects completions,
      and once more when requests are counted as queued. */
  lemma ServicedMeans(s: State, tr: seq<Event>, t: State)
    requires Inv(s) && Quiet(s) && Serviced(s, tr, t)
    ensures Traced(s, tr, t) && Inv(t) && Quiet(t)
    ensures !s.conf.polling && CompleteStep(s).workReqPend == 0 ==> tr == [Complete]
    ensures !s.conf.polling && !s.online ==> tr == [Complete]
    ensures !s.conf.polling && s.stopWait && CompleteStep(s).workReqPend != 0 ==> tr == [Complete, Complete]
    ensures !s.conf.polling && s.online && !s.stopWait && CompleteStep(s).workReqPend != 0 ==>
              t.work == [] || t.avail == 0
    ensures s.conf.polling && s.stopWait ==> tr == [Complete]
    ensures s.conf.polling && s.online && !s.stopWait ==> |tr| >= 2 && tr[0].Hardware? && tr[1].Complete?
    ensures s.conf.polling && s.online && !s.stopWait && s.work != [] && s.avail > 0 ==> t.published > s.published
  {
    hide Traced, Inv, CompleteStep, Processed;
    InvConf(s);
    if s.conf.polling {
      ProcessedMeans(s, tr, t);
    } else {
      TraceNothing(s);
      TraceOne(s, [], s, Complete);
      assert [] + [Complete] == [Complete];
      CompleteKeeps(s);
      CompleteFrame(s);
      if CompleteStep(s).workReqPend != 0 {
        ProcessedMeans(CompleteStep(s), tr[1..], t);
        TraceJoin(s, [Complete], CompleteStep(s), tr[1..], t);
        assert tr == [Complete] + tr[1..];
      }
    }
  }

  // ------------------------------------------------------------ without polling, one only

  lemma {:induction false} SameConf(s: State, tr: seq<Event>, t: State)
    requires !s.conf.polling && Rounds(s, tr, t)
    ensures t.conf == s.conf
    decreases |tr|
  {
    hide IssueStep, Polled;
    var n := |tr|;
    if n > 0 {
      if tr[n - 1].Issue? {
        var u :| Rounds(s, tr[..n - 1], u) && IssueEnabled(u) && t == IssueStep(u);
        SameConf(s, tr[..n - 1], u);
        IssueFrame(u);
      } else {
        var u :| Rounds(s, tr[..n - 2], u) && u.work != [] && u.avail == 0 && u.conf.polling
                 && Polled(u, tr[n - 2..], t);
        SameConf(s, tr[..n - 2], u);
      }
    }
  }

  /** Without polling every round is an issue pass. */
  lemma LastIssue(s: State, tr: seq<Event>, t: State) returns (u: State)
    requires !s.conf.polling && Rounds(s, tr, t) && |tr| > 0
    ensures tr[|tr| - 1].Issue? && Rounds(s, tr[..|tr| - 1], u) && IssueEnabled(u) && t == IssueStep(u)
  {
    hide IssueStep, Polled;
    var n := |tr|;
    if tr[n - 1].Issue? {
      u :| Rounds(s, tr[..n - 1], u) && IssueEnabled(u) && t == IssueStep(u);
    } else {
      u :| Rounds(s, tr[..n - 2], u) && u.work != [] && u.avail == 0 && u.conf.polling && Polled(u, tr[n - 2..], t);
      SameConf(s, tr[..n - 2], u);
      assert false;
    }
  }

  /** There is only one way to go on until there is no work or no space. */
  lemma {:induction false} RoundsPrefix(s: State, tr: seq<Event>, t: State, more: seq<Event>, u: State)
    requires !s.conf.polling && Rounds(s, tr, t) && Rounds(s, more, u) && |tr| <= |more|
    ensures more[..|tr|] == tr && (|tr| == |more| ==> t == u)
    ensures |tr| < |more| ==> IssueEnabled(t)
    decreases |more|
  {
    hide IssueStep, Rounds, IssueEnabled;
    var n := |more|;
    if n == 0 {
      NoRounds(s, tr, t);
      NoRounds(s, more, u);
    } else {
      var v := LastIssue(s, more, u);
      if |tr| < n {
        RoundsPrefix(s, tr, t, more[..n - 1], v);
        assert more[..n - 1][..|tr|] == more[..|tr|];
      } else {
        var w := LastIssue(s, tr, t);
        RoundsPrefix(s, tr[..n - 1], w, more[..n - 1], v);
        assert tr == tr[..n - 1] + [tr[n - 1]] && more == more[..n - 1] + [more[n - 1]];
        assert more[..n - 1][..n - 1] == more[..n - 1];
      }
    }
  }

  /** So in an interrupt mode a processing call has one outcome: everything that fits is
      issued and published, and nothing else happens. */
  lemma InterruptUnique(s: State, tr: seq<Event>, t: State, tr': seq<Event>, t': State)
    requires !s.conf.polling && Processed(s, tr, t) && Processed(s, tr', t')
    ensures tr == tr' && t == t'
  {
    hide CompleteStep, InParts;
    if s.online && !s.stopWait {
      var p :| InParts(s, tr, t, p);
      var q :| InParts(s, tr', t', q);
      OnePart(s, tr, t, p, tr', t', q);
    }
  }

  lemma OnePart(s: State, tr: seq<Event>, t: State, p: Parts, tr': seq<Event>, t': State, q: Parts)
    requires !s.conf.polling && InParts(s, tr, t, p) && InParts(s, tr', t', q)
    ensures tr == tr' && t == t'
  {
    hide Rounds, Told, Polled;
    NoPoll(s, p.first, p.begun);
    NoPoll(s, q.first, q.begun);
    if |p.rounds| <= |q.rounds| {
      RoundsPrefix(s, p.rounds, p.ended, q.rounds, q.ended);
    } else {
      RoundsPrefix(s, q.rounds, q.ended, p.rounds, p.ended);
    }
    SameConf(s, p.rounds, p.ended);
    assert p.rounds == q.rounds[..|p.rounds|] == q.rounds && p.ended == q.ended;
    ToldUnique(p.ended, p.last, t, q.last, t');
  }

  lemma ToldUnique(s: State, tr: seq<Event>, t: State, tr': seq<Event>, t': State)
    requires !s.conf.polling && Told(s, tr, t) && Told(s, tr', t')
    ensures tr == tr' && t == t'
  {
    if s.published != s.produced {
      assert tr == [tr[0]] + tr[1..] && tr' == [tr'[0]] + tr'[1..];
    }
  }
}
