// Credit accounting of an in-order queue, over abstract items: `plans[i]` is
// the list of descriptors of the i-th request, `owed[j]` what the j-th pending
// request is still charged for.
module Ledger {

  function Join<T>(plans: seq<seq<T>>): seq<T> {
    if |plans| == 0 then [] else Join(plans[..|plans| - 1]) + plans[|plans| - 1]
  }

  function Sum(xs: seq<nat>): nat {
    if |xs| == 0 then 0 else xs[0] + Sum(xs[1..])
  }

  lemma JoinSnoc<T>(plans: seq<seq<T>>, i: nat, j: nat)
    requires i <= j < |plans|
    ensures Join(plans[i..j + 1]) == Join(plans[i..j]) + plans[j]
  {
    assert plans[i..j + 1][..j - i] == plans[i..j];
  }

  lemma {:induction false} JoinSplit<T>(plans: seq<seq<T>>, i: nat, m: nat, j: nat)
    requires i <= m <= j <= |plans|
    ensures Join(plans[i..j]) == Join(plans[i..m]) + Join(plans[m..j])
    decreases j
  {
    hide Join;
    if m < j {
      JoinSplit(plans, i, m, j - 1);
      JoinSnoc(plans, i, j - 1);
      JoinSnoc(plans, m, j - 1);
    } else {
      assert plans[m..j] == [];
      JoinNone<T>();
    }
  }

  lemma JoinNone<T>()
    ensures Join<T>([]) == []
  {
  }

  /** Requests before `done` are settled, the next `|owed|` are pending, the one
      after them is issued up to `part`; `log` is everything issued, of which
      `consumed` items were returned and `credit` of those not yet paid out. */
  ghost predicate Balanced<T>(plans: seq<seq<T>>, done: nat, owed: seq<nat>, part: nat,
                              credit: nat, consumed: nat, log: seq<T>) {
    var open := done + |owed|;
    && open <= |plans|
    && (if open < |plans| then part <= |plans[open]| else part == 0)
    && log == Join(plans[..open]) + (if open < |plans| then plans[open][..part] else [])
    && |Join(plans[..done])| + (if |owed| > 0 then |plans[done]| - owed[0] else 0) + credit == consumed
    && (|owed| > 0 ==> credit < owed[0] <= |plans[done]|)
    && Owing(plans, done, owed)
  }

  /** Pending requests behind the oldest owe their whole plans. */
  ghost predicate Owing<T>(plans: seq<seq<T>>, done: nat, owed: seq<nat>)
    requires done + |owed| <= |plans|
  {
    forall i :: 0 < i < |owed| ==> owed[i] == |plans[done + i]| > 0
  }

  /** Plan length up to the `m`-th pending request. */
  lemma {:induction false} OwedSoFar<T>(plans: seq<seq<T>>, done: nat, owed: seq<nat>, m: nat)
    requires done + |owed| <= |plans| && 1 <= m <= |owed|
    requires forall i :: 0 < i < |owed| ==> owed[i] == |plans[done + i]|
    ensures |Join(plans[..done + m])| == |Join(plans[..done])| + |plans[done]| - owed[0] + Sum(owed[..m])
    decreases m
  {
    hide Join, Sum;
    JoinSnoc(plans, 0, done + m - 1);
    assert plans[0..done + m] == plans[..done + m] && plans[0..done + m - 1] == plans[..done + m - 1];
    SumSnoc(owed, m - 1);
    if m > 1 {
      OwedSoFar(plans, done, owed, m - 1);
    } else {
      SumNothing(owed);
    }
  }

  lemma {:induction false} SumSnoc(xs: seq<nat>, m: nat)
    requires m < |xs|
    ensures Sum(xs[..m + 1]) == Sum(xs[..m]) + xs[m]
    decreases m
  {
    if m > 0 {
      assert xs[..m + 1][1..] == xs[1..][..m];
      assert xs[..m][1..] == xs[1..][..m - 1];
      SumSnoc(xs[1..], m - 1);
    } else {
      assert xs[..1][1..] == [];
    }
  }

  /** What is charged and not yet returned, plus credit not yet paid out, is what
      pending requests and the partly issued one still owe. */
  lemma Conservation<T>(plans: seq<seq<T>>, done: nat, owed: seq<nat>, part: nat,
                        credit: nat, consumed: nat, log: seq<T>)
    requires Balanced(plans, done, owed, part, credit, consumed, log)
    ensures consumed <= |log| + credit
    ensures Sum(owed) + part == (|log| - consumed) + credit
    ensures consumed == |log| ==> |owed| == 0
  {
    hide Join, Sum;
    if |owed| > 0 {
      OwedSoFar(plans, done, owed, |owed|);
      assert owed[..|owed|] == owed;
      SumSnoc(owed, |owed| - 1);
      FirstOwed(owed);
    } else {
      SumNothing(owed);
      assert owed[..0] == owed;
    }
  }

  lemma SumHead(xs: seq<nat>)
    ensures Sum(xs) == if |xs| == 0 then 0 else xs[0] + Sum(xs[1..])
  {
  }

  lemma FirstOwed(owed: seq<nat>)
    requires |owed| > 0
    ensures Sum(owed) >= owed[0]
  {
  }

  /** Pay `credit` to the pending requests, oldest first. */
  function Pay(owed: seq<nat>, credit: nat): (res: (nat, seq<nat>, nat))
    ensures res.0 <= |owed| && |res.1| == |owed| - res.0
  {
    if |owed| == 0 then (0, [], credit)
    else if credit >= owed[0] then
      if credit == owed[0] then (1, owed[1..], 0)
      else
        var (n, rest, c) := Pay(owed[1..], credit - owed[0]);
        (n + 1, rest, c)
    else (0, [owed[0] - credit] + owed[1..], 0)
  }

  lemma {:induction false} PaySpec(owed: seq<nat>, credit: nat)
    requires credit > 0 && forall i :: 0 <= i < |owed| ==> owed[i] > 0
    ensures var (n, rest, c) := Pay(owed, credit);
            && (forall i :: 0 < i < |rest| ==> rest[i] == owed[n + i])
            && (|rest| > 0 ==> c == 0 < rest[0] <= owed[n])
            && credit == Sum(owed[..n]) + (if |rest| > 0 then owed[n] - rest[0] else 0) + c
    decreases |owed|
  {
    if |owed| > 0 && credit >= owed[0] {
      if credit == owed[0] {
        assert owed[..1] == [owed[0]];
      } else {
        PaySpec(owed[1..], credit - owed[0]);
        var (n, rest, c) := Pay(owed[1..], credit - owed[0]);
        assert owed[..n + 1][1..] == owed[1..][..n];
      }
    }
  }

  /** Paying moves credit into charges, one for one. */
  lemma {:induction false} PaySum(owed: seq<nat>, credit: nat)
    ensures var (n, rest, c) := Pay(owed, credit);
            Sum(rest) + credit == Sum(owed) + c
    decreases |owed|
  {
    if |owed| > 0 && credit > owed[0] {
      PaySum(owed[1..], credit - owed[0]);
    } else if |owed| > 0 && credit < owed[0] {
      assert ([owed[0] - credit] + owed[1..])[1..] == owed[1..];
    }
  }

  /** Credit that covers what the first `m` owe pays at least these. */
  lemma {:induction false} PayAtLeast(owed: seq<nat>, m: nat, credit: nat)
    requires credit > 0 && m <= |owed| && Sum(owed[..m]) <= credit
    requires forall i :: 0 <= i < |owed| ==> owed[i] > 0
    ensures Pay(owed, credit).0 >= m
    decreases m
  {
    if m > 0 {
      assert owed[..m][1..] == owed[1..][..m - 1];
      if m > 1 {
        SumPositive(owed[1..][..m - 1]);
      }
      if credit != owed[0] {
        PayAtLeast(owed[1..], m - 1, credit - owed[0]);
      }
    }
  }

  lemma SumPositive(xs: seq<nat>)
    requires |xs| > 0 && xs[0] > 0
    ensures Sum(xs) >= xs[0]
  {
  }

  /** Credit that covers everything owed pays everybody. */
  lemma PayAll(owed: seq<nat>, credit: nat)
    requires credit > 0 && Sum(owed) <= credit && forall i :: 0 <= i < |owed| ==> owed[i] > 0
    ensures Pay(owed, credit).0 == |owed|
  {
    assert owed[..|owed|] == owed;
    PayAtLeast(owed, |owed|, credit);
  }

  lemma {:induction false} SumConcat(xs: seq<nat>, ys: seq<nat>)
    ensures Sum(xs + ys) == Sum(xs) + Sum(ys)
  {
    if |xs| == 0 {
      assert xs + ys == ys;
    } else {
      assert (xs + ys)[1..] == xs[1..] + ys;
      SumConcat(xs[1..], ys);
    }
  }

  /** `now` is what is left of `owed` after `paid` was paid, oldest first. */
  ghost predicate PaidDown(owed: seq<nat>, now: seq<nat>, paid: nat) {
    && |now| <= |owed|
    && var m := |owed| - |now|;
       && (forall j :: 0 < j < |now| ==> now[j] == owed[m + j])
       && (|now| > 0 ==> now[0] <= owed[m])
       && paid == Sum(owed[..m]) + if |now| > 0 then owed[m] - now[0] else 0
  }

  /** The part of a list already paid in part. */
  lemma SumShift(owed: seq<nat>, now: seq<nat>, n: nat)
    requires 0 < n <= |now| <= |owed| && now[0] <= owed[|owed| - |now|]
    requires forall j :: 0 < j < |now| ==> now[j] == owed[|owed| - |now| + j]
    ensures var m := |owed| - |now|;
            Sum(owed[..m + n]) == Sum(owed[..m]) + Sum(now[..n]) + (owed[m] - now[0])
  {
    var m := |owed| - |now|;
    assert owed[..m + n] == owed[..m] + owed[m..m + n];
    SumConcat(owed[..m], owed[m..m + n]);
    assert owed[m..m + n][1..] == now[..n][1..];
  }

  /** Paying goes on where it left off. */
  lemma PayMore(owed: seq<nat>, now: seq<nat>, paid: nat, credit: nat)
    requires PaidDown(owed, now, paid) && credit > 0
    requires forall i :: 0 <= i < |now| ==> now[i] > 0
    ensures var (n, rest, c) := Pay(now, credit);
            c <= credit && PaidDown(owed, rest, paid + (credit - c))
  {
    hide Sum, Pay;
    PaySpec(now, credit);
    var (n, rest, c) := Pay(now, credit);
    if n > 0 {
      SumShift(owed, now, n);
    } else {
      SumNothing(now);
    }
    var m := |owed| - |now|;
    forall j | 0 < j < |rest|
      ensures rest[j] == owed[m + n + j]
    {
      assert rest[j] == now[n + j];
    }
    assert |rest| > 0 ==> rest[0] <= owed[m + n];
  }

  lemma SumNothing(xs: seq<nat>)
    ensures Sum(xs[..0]) == 0
  {
  }

  /** Paying out newly returned items keeps the balance. */
  lemma PayKeeps<T>(plans: seq<seq<T>>, done: nat, owed: seq<nat>, part: nat,
                    credit: nat, consumed: nat, log: seq<T>, cr: nat)
    requires Balanced(plans, done, owed, part, credit, consumed, log)
    requires cr > 0
    ensures var (n, rest, c) := Pay(owed, credit + cr);
            Balanced(plans, done + n, rest, part, c, consumed + cr, log)
  {
    hide Join, Sum, Pay;
    PaySpec(owed, credit + cr);
    var (n, rest, c) := Pay(owed, credit + cr);
    if n > 0 {
      OwedSoFar(plans, done, owed, n);
    } else {
      SumNothing(owed);
    }
    StillOwing(plans, done, owed, n, rest);
  }

  lemma StillOwing<T>(plans: seq<seq<T>>, done: nat, owed: seq<nat>, n: nat, rest: seq<nat>)
    requires done + |owed| <= |plans| && Owing(plans, done, owed) && n + |rest| == |owed|
    requires forall i :: 0 < i < |rest| ==> rest[i] == owed[n + i]
    ensures Owing(plans, done + n, rest)
  {
    forall i | 0 < i < |rest|
      ensures rest[i] == |plans[done + n + i]| > 0
    {
      var j := n + i;
      assert owed[j] == |plans[done + j]| > 0;
    }
  }

  /** Issuing more of the open request, but not all of it, keeps the balance. */
  lemma IssueSome<T>(plans: seq<seq<T>>, done: nat, owed: seq<nat>, part: nat,
                     credit: nat, consumed: nat, log: seq<T>, n: nat)
    requires Balanced(plans, done, owed, part, credit, consumed, log)
    requires done + |owed| < |plans| && part + n <= |plans[done + |owed|]|
    ensures Balanced(plans, done, owed, part + n, credit, consumed, log + plans[done + |owed|][part..part + n])
  {
    var plan := plans[done + |owed|];
    assert plan[..part + n] == plan[..part] + plan[part..part + n];
  }

  /** Once all of it is issued, the open request becomes pending. Credit that
      arrived while it was partly issued is still below what it owes. */
  lemma IssueAll<T>(plans: seq<seq<T>>, done: nat, owed: seq<nat>, part: nat,
                    credit: nat, consumed: nat, log: seq<T>)
    requires Balanced(plans, done, owed, part, credit, consumed, log)
    requires done + |owed| < |plans| && part < |plans[done + |owed|]|
    requires consumed <= |log|
    ensures var plan := plans[done + |owed|];
            Balanced(plans, done, owed + [|plan|], 0, credit, consumed, log + plan[part..])
  {
    hide Join, Sum;
    var open := done + |owed|;
    var plan := plans[open];
    Conservation(plans, done, owed, part, credit, consumed, log);
    JoinSnoc(plans, 0, open);
    if |owed| == 0 {
      SumNothing(owed);
      assert owed[..0] == owed;
    }
    assert plans[0..open + 1] == plans[..open + 1] && plans[0..open] == plans[..open];
    assert log + plan[part..] == Join(plans[..open]) + (plan[..part] + plan[part..]);
    assert plan[..part] + plan[part..] == plan;
    var owed' := owed + [|plan|];
    assert |owed| > 0 ==> owed'[0] == owed[0];
    MoreOwing(plans, done, owed);
    if done + |owed'| < |plans| {
      assert plans[done + |owed'|][..0] == [];
      assert Join(plans[..open + 1]) + plans[done + |owed'|][..0] == Join(plans[..open + 1]);
    }
  }

  lemma MoreOwing<T>(plans: seq<seq<T>>, done: nat, owed: seq<nat>)
    requires done + |owed| < |plans| && Owing(plans, done, owed) && |plans[done + |owed|]| > 0
    ensures Owing(plans, done, owed + [|plans[done + |owed|]|])
  {
    var owed' := owed + [|plans[done + |owed|]|];
    forall i | 0 < i < |owed'|
      ensures owed'[i] == |plans[done + i]| > 0
    {
      if i < |owed| {
        assert owed[i] == |plans[done + i]| > 0;
      }
    }
  }

  /** Accepting requests keeps the balance. */
  lemma AcceptKeeps<T>(plans: seq<seq<T>>, done: nat, owed: seq<nat>, part: nat,
                       credit: nat, consumed: nat, log: seq<T>, more: seq<seq<T>>)
    requires Balanced(plans, done, owed, part, credit, consumed, log)
    ensures Balanced(plans + more, done, owed, part, credit, consumed, log)
  {
    var open := done + |owed|;
    assert (plans + more)[..open] == plans[..open];
    assert (plans + more)[..done] == plans[..done];
    if open == |plans| < |plans + more| {
      assert (plans + more)[open][..0] == [];
    }
  }

  /** Where the items of a request that is issued lie: one contiguous stretch of the
      log. */
  lemma IssuedSegment<T>(plans: seq<seq<T>>, done: nat, owed: seq<nat>, part: nat,
                         credit: nat, consumed: nat, log: seq<T>, i: nat)
    requires Balanced(plans, done, owed, part, credit, consumed, log)
    requires i < done + |owed|
    ensures i < |plans|
    ensures var at := |Join(plans[..i])|;
            && at + |plans[i]| == |Join(plans[..i + 1])| <= |log|
            && log[at..at + |plans[i]|] == plans[i]
  {
    JoinUpTo(plans, i, done + |owed|);
  }

  lemma JoinUpTo<T>(plans: seq<seq<T>>, i: nat, open: nat)
    requires i < open <= |plans|
    ensures Join(plans[..i + 1]) == Join(plans[..i]) + plans[i]
    ensures Join(plans[..i + 1]) <= Join(plans[..open])
  {
    hide Join;
    JoinSnoc(plans, 0, i);
    JoinSplit(plans, 0, i + 1, open);
    assert plans[0..i] == plans[..i] && plans[0..i + 1] == plans[..i + 1] && plans[0..open] == plans[..open];
  }

  /** A settled request has, in addition, all its items returned. */
  lemma DoneSegment<T>(plans: seq<seq<T>>, done: nat, owed: seq<nat>, part: nat,
                       credit: nat, consumed: nat, log: seq<T>, i: nat)
    requires Balanced(plans, done, owed, part, credit, consumed, log)
    requires i < done
    ensures |Join(plans[..i + 1])| <= consumed
  {
    hide Join;
    JoinUpTo(plans, i, done);
  }

  /** Where the items of the `p`-th pending request end: what is returned, less the
      credit in hand, plus what it and those before it owe. */
  lemma PendingEnd<T>(plans: seq<seq<T>>, done: nat, owed: seq<nat>, part: nat,
                      credit: nat, consumed: nat, log: seq<T>, p: nat)
    requires Balanced(plans, done, owed, part, credit, consumed, log)
    requires p < |owed|
    ensures done + p + 1 <= |plans|
    ensures |Join(plans[..done + p + 1])| + credit == consumed + Sum(owed[..p + 1])
    ensures credit < owed[0]
  {
    OwedSoFar(plans, done, owed, p + 1);
  }
}
