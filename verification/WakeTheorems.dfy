/** Main results about the wake protocol: single flight, the wake rate, agreement between joiners,
    and what backs a forwarded request. */
module WakeTheorems {
  import opened Prelude
  import opened WakeProtocol
  import opened WakeSafety

  /** At most one wake is between installation and clearing, wakeInFlight names it, and a goroutine
      that clears the field clears its own wake although it does not look. */
  lemma SingleFlight(p: Params, s: State)
    requires p.Valid() && Reachable(p, s)
    ensures forall v, w | 0 <= v < |s.wakes| && 0 <= w < |s.wakes| ::
              Uncleared(s.wakes[v].pc) && Uncleared(s.wakes[w].pc) ==> v == w
    ensures s.inFlight.None? <==> forall w | 0 <= w < |s.wakes| :: !Uncleared(s.wakes[w].pc)
    ensures forall w | 0 <= w < |s.wakes| && s.wakes[w].pc.Clearing? :: s.inFlight == Some(w)
    ensures forall r | 0 <= r < |s.requests| && s.requests[r].pc.Installing? :: s.inFlight.None?
  {
    ReachableInv(p, s);
    if s.inFlight.Some? {
      assert Uncleared(s.wakes[s.inFlight.value].pc);
    }
  }

  /** How many stamps lie in the closed window from lo to hi. */
  function CountIn(stamps: seq<int>, lo: int, hi: int): nat {
    if stamps == [] then 0
    else
      var last := stamps[|stamps| - 1];
      CountIn(stamps[..|stamps| - 1], lo, hi) + (if lo <= last <= hi then 1 else 0)
  }

  lemma {:induction false} CountShrinks(stamps: seq<int>, lo: int, hi: int, top: int)
    requires top <= hi && forall i | 0 <= i < |stamps| :: stamps[i] <= top
    ensures CountIn(stamps, lo, hi) == CountIn(stamps, lo, top)
  {
    if stamps != [] {
      CountShrinks(stamps[..|stamps| - 1], lo, hi, top);
    }
  }

  lemma {:induction false} SpacedBelow(stamps: seq<int>, gap: int, i: nat)
    requires gap > 0 && Spaced(stamps, gap) && i < |stamps| - 1
    ensures stamps[i] + gap <= stamps[|stamps| - 1]
    decreases |stamps|
  {
    if i < |stamps| - 2 {
      SpacedBelow(stamps[..|stamps| - 1], gap, i);
    }
  }

  lemma {:induction false} NoneBelow(stamps: seq<int>, lo: int, hi: int)
    requires hi < lo
    ensures CountIn(stamps, lo, hi) == 0
  {
    if stamps != [] {
      NoneBelow(stamps[..|stamps| - 1], lo, hi);
    }
  }

  lemma {:induction false} SpacedCount(stamps: seq<int>, gap: int, lo: int, hi: int)
    requires gap > 0 && Spaced(stamps, gap) && lo <= hi
    ensures CountIn(stamps, lo, hi) * gap <= hi - lo + gap
    decreases |stamps|
  {
    if stamps != [] {
      var front, last := stamps[..|stamps| - 1], stamps[|stamps| - 1];
      if !(lo <= last <= hi) {
        SpacedCount(front, gap, lo, hi);
      } else {
        forall i | 0 <= i < |front|
          ensures front[i] <= last - gap
        {
          SpacedBelow(stamps, gap, i);
        }
        CountShrinks(front, lo, hi, last - gap);
        if lo <= last - gap {
          SpacedCount(front, gap, lo, last - gap);
        } else {
          NoneBelow(front, lo, last - gap);
        }
        PlusOne(CountIn(front, lo, hi), gap);
      }
    }
  }

  function TotalSends(wakes: seq<Wake>): nat {
    if wakes == [] then 0 else TotalSends(wakes[..|wakes| - 1]) + wakes[|wakes| - 1].sends
  }

  lemma {:induction false} SendsAtMostOneEach(wakes: seq<Wake>)
    requires forall w | 0 <= w < |wakes| :: wakes[w].sends <= 1
    ensures TotalSends(wakes) <= |wakes|
  {
    if wakes != [] {
      SendsAtMostOneEach(wakes[..|wakes| - 1]);
    }
  }

  /** Rate: with a positive debounce, a window of any length L contains at most 1 + L / debounce
      wake starts of this coordinator, however many requests arrive; and SendWoL is called at most
      once per wake start. */
  lemma WakeRate(p: Params, s: State, lo: int, hi: int)
    requires p.Valid() && Reachable(p, s) && lo <= hi
    ensures p.debounce > 0 ==> CountIn(s.stamps, lo, hi) <= 1 + (hi - lo) / p.debounce
    ensures forall w | 0 <= w < |s.wakes| :: s.wakes[w].sends <= 1
    ensures TotalSends(s.wakes) <= |s.stamps|
  {
    ReachableInv(p, s);
    forall w | 0 <= w < |s.wakes|
      ensures s.wakes[w].sends <= 1
    {
      assert WakeOk(s, w);
    }
    SendsAtMostOneEach(s.wakes);
    if p.debounce > 0 {
      SpacedCount(s.stamps, p.debounce, lo, hi);
      PlusOne(CountIn(s.stamps, lo, hi) - 1, p.debounce);
      QuotientBound(CountIn(s.stamps, lo, hi) - 1, hi - lo, p.debounce);
    }
  }

  /** Each request is answered once at most, and exactly once when it has ended. A forwarded request
      rests on a Healthy store read made by itself, or by the wake it joined at a moment when that
      wake was the one in flight. */
  lemma ForwardingSafety(p: Params, s: State, r: nat)
    requires p.Valid() && Reachable(p, s) && r < |s.requests|
    ensures
      var q := s.requests[r];
      && q.forwards + q.refusals == (if q.pc.Forwarded? || q.pc.Refused? then 1 else 0)
      && (q.forwards == 1 ==>
            exists i | 0 <= i < |s.log| ::
              s.log[i].healthy &&
              match s.log[i].agent
              case ByRequest(reader) => reader == r
              case ByWake(w) => q.pc == Forwarded(Joined(w)) && s.log[i].inFlight == Some(w))
  {
    ReachableInv(p, s);
    var q := s.requests[r];
    assert RequestOk(s, r);
    if q.pc.Forwarded? {
      if q.pc.via.Joined? {
        var k := s.wakes[q.pc.via.w];
        assert WakeOk(s, q.pc.via.w);
        assert s.log[k.seen.value].healthy;
      } else {
        assert s.log[q.seen.value].healthy;
      }
    }
  }

  /** The wake whose done channel a request returned through, and the result it got. */
  function Outcome(q: Request): Option<(nat, Verdict)> {
    match q.pc
    case Forwarded(Joined(w)) => Some((w, Healthy))
    case Refused(WakeFailed(w)) => Some((w, TimedOut))
    case _ => None
  }

  /** Every wake closes its done channel at most once, never before its error is set, and all
      requests that return through it get the error it ended with. */
  lemma Agreement(p: Params, s: State, q: nat, r: nat)
    requires p.Valid() && Reachable(p, s) && q < |s.requests| && r < |s.requests|
    ensures forall w | 0 <= w < |s.wakes| ::
              s.wakes[w].closes <= 1 && (s.wakes[w].closes == 1 ==> s.wakes[w].err.Some?)
    ensures
      var a, b := Outcome(s.requests[q]), Outcome(s.requests[r]);
      && (a.Some? ==> a.value.0 < |s.wakes| && s.wakes[a.value.0].err == Some(a.value.1))
      && (a.Some? && b.Some? && a.value.0 == b.value.0 ==> a == b)
  {
    ReachableInv(p, s);
    forall w | 0 <= w < |s.wakes|
      ensures s.wakes[w].closes <= 1 && (s.wakes[w].closes == 1 ==> s.wakes[w].err.Some?)
    {
      assert WakeOk(s, w);
    }
    assert RequestOk(s, q) && RequestOk(s, r);
  }

  lemma AnswerStays(p: Params, s: State, e: Event, r: nat)
    requires Enabled(p, s, e) && r < |s.requests|
    requires s.requests[r].pc.Forwarded? || s.requests[r].pc.Refused?
    ensures r < |Next(p, s, e).requests| && Next(p, s, e).requests[r] == s.requests[r]
  {}

  /** Over any continuation of any run: a closed wake keeps its result and a request that has been
      answered keeps its answer and is never answered again. */
  lemma {:induction false} ResultsAreFinal(p: Params, s: State, es: seq<Event>, w: nat, r: nat)
    requires p.Valid() && Reachable(p, s) && After(p, s, es).Some?
    requires w < |s.wakes| && s.wakes[w].closes == 1
    requires r < |s.requests| && (s.requests[r].pc.Forwarded? || s.requests[r].pc.Refused?)
    ensures
      var t := After(p, s, es).value;
      && w < |t.wakes| && t.wakes[w].closes == 1 && t.wakes[w].err == s.wakes[w].err
      && r < |t.requests| && t.requests[r] == s.requests[r]
  {
    if es != [] {
      var front := es[..|es| - 1];
      ResultsAreFinal(p, s, front, w, r);
      ReachableInv(p, s);
      InvRun(p, s, front);
      ResultStays(p, After(p, s, front).value, es[|es| - 1], w);
      AnswerStays(p, After(p, s, front).value, es[|es| - 1], r);
    }
  }
}
