/** What a single lost reminder command costs: exactly when finishing the remaining work still makes the watch right. */
module Losses {
  import opened Bytes
  import opened WireFormat
  import opened Bridges
  import opened SyncProtocol

  /** The command decides what slot k holds. */
  predicate Touches(c: Command, k: byte)
    requires Proper(c)
  {
    c == DeleteAll || c.data[1] == k
  }

  predicate Covers(cs: seq<Command>, k: byte)
    requires AllProper(cs)
  {
    exists i :: 0 <= i < |cs| && Touches(cs[i], k)
  }

  predicate SameAt(v: WatchMap, w: WatchMap, k: byte) { (k in v <==> k in w) && (k in v ==> v[k] == w[k]) }

  lemma SameEverywhere(v: WatchMap, w: WatchMap)
    requires forall k: byte :: SameAt(v, w, k)
    ensures v == w
  {
    forall k: byte
      ensures k in v.Keys <==> k in w.Keys
      ensures k in v ==> v[k] == w[k]
    {
      assert SameAt(v, w, k);
    }
  }

  /** A slot no command decides is left as it was. */
  lemma {:induction false} SlotKept(cs: seq<Command>, w: WatchMap, k: byte)
    requires AllProper(cs) && !Covers(cs, k)
    ensures SameAt(Replay(cs, w), w, k)
    decreases |cs|
  {
    if cs != [] {
      assert cs[0] in cs;
      SlotKept(cs[1..], Apply(cs[0], w), k);
    }
  }

  /** A slot some command decides ends up the same on every watch. */
  lemma {:induction false} SlotDecided(cs: seq<Command>, v: WatchMap, w: WatchMap, k: byte)
    requires AllProper(cs) && Covers(cs, k)
    ensures SameAt(Replay(cs, v), Replay(cs, w), k)
    decreases |cs|
  {
    assert cs[0] in cs;
    var v', w' := Apply(cs[0], v), Apply(cs[0], w);
    if Covers(cs[1..], k) {
      SlotDecided(cs[1..], v', w', k);
    } else {
      assert SameAt(v', w', k);
      SlotKept(cs[1..], v', k);
      SlotKept(cs[1..], w', k);
    }
  }

  /** Two watches that differ only in slots the work decides end up the same. */
  lemma ReplayForgets(cs: seq<Command>, v: WatchMap, w: WatchMap)
    requires AllProper(cs) && forall k: byte :: SameAt(v, w, k) || Covers(cs, k)
    ensures Replay(cs, v) == Replay(cs, w)
  {
    forall k: byte
      ensures SameAt(Replay(cs, v), Replay(cs, w), k)
    {
      if Covers(cs, k) {
        SlotDecided(cs, v, w, k);
      } else {
        assert SameAt(v, w, k);
        SlotKept(cs, v, k);
        SlotKept(cs, w, k);
      }
    }
    SameEverywhere(Replay(cs, v), Replay(cs, w));
  }

  // ---------------------------------------------------------------- one command missing

  /** Everything the lost command would have decided is decided again by the work behind it. */
  predicate MadeGood(c: Command, rest: seq<Command>)
    requires Proper(c) && AllProper(rest)
  {
    forall k: byte :: Touches(c, k) ==> Covers(rest, k)
  }

  /** The command finds slot k as it would leave it: the work before it has decided the slot, to the same content. */
  predicate NoOp(pre: seq<Command>, c: Command, k: byte)
    requires AllProper(pre)
  {
    Covers(pre, k) && SameAt(Apply(c, Replay(pre, map[])), Replay(pre, map[]), k)
  }

  predicate Redundant(pre: seq<Command>, c: Command, rest: seq<Command>)
    requires AllProper(pre) && Proper(c) && AllProper(rest)
  {
    forall k: byte :: Touches(c, k) ==> Covers(rest, k) || NoOp(pre, c, k)
  }

  lemma SplitReplay(pre: seq<Command>, c: Command, rest: seq<Command>, w: WatchMap)
    ensures Replay(pre + rest, w) == Replay(rest, Replay(pre, w))
    ensures Replay(pre + ([c] + rest), w) == Replay(rest, Apply(c, Replay(pre, w)))
  {
    ReplayConcat(pre, rest, w);
    ReplayConcat(pre, [c] + rest, w);
    assert ([c] + rest)[0] == c && ([c] + rest)[1..] == rest;
  }

  lemma RedundantLoss(pre: seq<Command>, c: Command, rest: seq<Command>, w: WatchMap)
    requires AllProper(pre) && Proper(c) && AllProper(rest) && Redundant(pre, c, rest)
    ensures Replay(pre + rest, w) == Replay(pre + ([c] + rest), w)
  {
    SplitReplay(pre, c, rest, w);
    var v := Replay(pre, w);
    forall k: byte
      ensures SameAt(Apply(c, v), v, k) || Covers(rest, k)
    {
      if Touches(c, k) && !Covers(rest, k) { SlotDecided(pre, map[], w, k); }
    }
    ReplayForgets(rest, Apply(c, v), v);
  }

  /** A slot that is neither decided again nor decided before keeps what the watch held; the command would have changed that. */
  lemma UndecidedSlot(pre: seq<Command>, c: Command, rest: seq<Command>, w: WatchMap, k: byte)
    requires AllProper(pre) && Proper(c) && AllProper(rest) && Touches(c, k) && !Covers(rest, k) && !Covers(pre, k)
    ensures SameAt(Replay(pre + rest, w), w, k)
    ensures SameAt(Replay(pre + ([c] + rest), w), Apply(c, map[]), k)
  {
    SplitReplay(pre, c, rest, w);
    SlotKept(pre, w, k);
    SlotKept(rest, Replay(pre, w), k);
    SlotKept(rest, Apply(c, Replay(pre, w)), k);
  }

  /** A slot decided before, to other content than the command's, and not again, comes out differently on every watch. */
  lemma ChangedSlot(pre: seq<Command>, c: Command, rest: seq<Command>, w: WatchMap, k: byte)
    requires AllProper(pre) && Proper(c) && AllProper(rest) && Touches(c, k) && !Covers(rest, k)
    requires Covers(pre, k) && !NoOp(pre, c, k)
    ensures !SameAt(Replay(pre + rest, w), Replay(pre + ([c] + rest), w), k)
  {
    SplitReplay(pre, c, rest, w);
    SlotDecided(pre, map[], w, k);
    SlotKept(rest, Replay(pre, w), k);
    SlotKept(rest, Apply(c, Replay(pre, w)), k);
  }

  /**
    Losing one command of the outstanding work changes nothing for any watch exactly when each slot it decides is
    decided again behind it, or was decided before it to the same content.
   */
  lemma LossChangesNothingIff(pre: seq<Command>, c: Command, rest: seq<Command>)
    requires AllProper(pre) && Proper(c) && AllProper(rest)
    ensures (forall w :: Replay(pre + rest, w) == Replay(pre + ([c] + rest), w)) <==> Redundant(pre, c, rest)
  {
    if Redundant(pre, c, rest) {
      forall w
        ensures Replay(pre + rest, w) == Replay(pre + ([c] + rest), w)
      {
        RedundantLoss(pre, c, rest, w);
      }
    } else {
      var k: byte :| Touches(c, k) && !Covers(rest, k) && !NoOp(pre, c, k);
      var w: WatchMap := map[k := []];
      if Covers(pre, k) {
        ChangedSlot(pre, c, rest, w, k);
      } else {
        UndecidedSlot(pre, c, rest, w, k);
      }
      assert Replay(pre + rest, w) != Replay(pre + ([c] + rest), w);
    }
  }

  // ---------------------------------------------------------------- and the cache

  /** For every watch, what was agreed before is agreed after. */
  ghost predicate LossIsHarmless(b: Bridge, b': Bridge)
  {
    forall w: WatchMap :: Agrees(b, w) ==> Agrees(b', w)
  }

  /** b' is b with command c gone from its work. */
  ghost predicate Loses(b: Bridge, b': Bridge, pre: seq<Command>, c: Command, rest: seq<Command>)
  {
    && Work(b) == pre + ([c] + rest) && Work(b') == pre + rest
    && b'.lastHash == b.lastHash && b'.synced == b.synced
    && AllProper(pre) && Proper(c) && AllProper(rest)
  }

  /** A record no snapshot has, in the slot the command decides, betrays the loss. */
  lemma UndecidedLossHarms(b: Bridge, b': Bridge, pre: seq<Command>, c: Command, rest: seq<Command>, w0: WatchMap, k: byte)
    requires Loses(b, b', pre, c, rest) && b.lastHash != 0 && Agrees(b, w0)
    requires Touches(c, k) && !Covers(rest, k) && !Covers(pre, k)
    ensures Agrees(b, w0[k := Foreign()]) && !Agrees(b', w0[k := Foreign()])
  {
    var w := w0[k := Foreign()];
    SameWithHole(pre, c, rest, w0, k);
    UndecidedSlot(pre, c, rest, w, k);
    if k in RecordsOf(b.synced) {
      RecordsHaveOneVersion(Uploads(b.synced), map[], k);
    }
  }

  lemma SameWithHole(pre: seq<Command>, c: Command, rest: seq<Command>, w: WatchMap, k: byte)
    requires AllProper(pre) && Proper(c) && AllProper(rest) && Touches(c, k)
    ensures Replay(pre + ([c] + rest), w[k := Foreign()]) == Replay(pre + ([c] + rest), w)
  {
    var cs := pre + ([c] + rest);
    assert cs[|pre|] == c;
    forall d | d in cs
      ensures Proper(d)
    {
      assert d in pre || d == c || d in rest;
    }
    ReplayForgets(cs, w[k := Foreign()], w);
  }

  /**
    Losing one outstanding command, wherever it stands, keeps the agreement for every watch exactly when the command
    is redundant.
   */
  lemma LossHarmlessIffRedundant(b: Bridge, b': Bridge, pre: seq<Command>, c: Command, rest: seq<Command>, w0: WatchMap)
    requires Loses(b, b', pre, c, rest) && b.lastHash != 0 && Agrees(b, w0)
    ensures LossIsHarmless(b, b') <==> Redundant(pre, c, rest)
  {
    if Redundant(pre, c, rest) {
      forall w: WatchMap | Agrees(b, w)
        ensures Agrees(b', w)
      {
        RedundantLoss(pre, c, rest, w);
      }
    } else {
      var k: byte :| Touches(c, k) && !Covers(rest, k) && !NoOp(pre, c, k);
      if Covers(pre, k) {
        ChangedSlot(pre, c, rest, w0, k);
      } else {
        UndecidedLossHarms(b, b', pre, c, rest, w0, k);
      }
    }
  }

  /** A reminder write that fails on the link: the oldest one, so only later work can make it good. */
  lemma FailedWriteHarmlessIff(s: Sys, w0: WatchMap)
    requires s.b.air != [] && s.b.air[0].Sent? && s.b.lastHash != 0 && Agrees(s.b, w0) && AllProper(Work(s.b))
    ensures var t := s.Step(Lose);
            && Proper(s.b.air[0].cmd) && AllProper(Work(t.b))
            && (LossIsHarmless(s.b, t.b) <==> MadeGood(s.b.air[0].cmd, Work(t.b)))
  {
    var t := s.Step(Lose);
    var c, rest := s.b.air[0].cmd, Work(t.b);
    HeadLeaves(s.b);
    assert [] + ([c] + rest) == Work(s.b) && [] + rest == rest;
    LossHarmlessIffRedundant(s.b, t.b, [], c, rest, w0);
  }

  /**
    A queued command the stack refuses, whatever is in flight before it. With nothing in flight, or in any case if
    each of its slots is decided again, the work behind it alone matters.
   */
  lemma RefusedWriteHarmlessIff(b: Bridge, w0: WatchMap)
    requires b.queue != [] && b.HandleFor(b.queue[0]) != 0 && b.lastHash != 0 && Agrees(b, w0) && AllProper(Work(b))
    ensures var c, pre, rest := b.queue[0], Commands(b.air), b.queue[1..];
            && AllProper(pre) && Proper(c) && AllProper(rest)
            && (LossIsHarmless(b, b.ProcessNext(false)) <==> Redundant(pre, c, rest))
            && (MadeGood(c, rest) ==> Redundant(pre, c, rest))
            && (pre == [] ==> (Redundant(pre, c, rest) <==> MadeGood(c, rest)))
  {
    var c, pre, rest := b.queue[0], Commands(b.air), b.queue[1..];
    assert b.queue == [c] + rest;
    LossHarmlessIffRedundant(b, b.ProcessNext(false), pre, c, rest, w0);
  }

  /** A later delete-all makes every loss good. */
  lemma NextBatchMakesGood(c: Command, before: seq<Command>, rs: seq<ApiReminder>)
    requires Proper(c) && AllProper(before)
    ensures AllProper(before + ([DeleteAll] + Uploads(rs))) && MadeGood(c, before + ([DeleteAll] + Uploads(rs)))
  {
    var cs := before + ([DeleteAll] + Uploads(rs));
    assert cs[|before|] == DeleteAll;
    forall d | d in cs
      ensures Proper(d)
    {
      assert d in before || d == DeleteAll || d in Uploads(rs);
    }
  }
}
