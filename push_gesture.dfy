/**
 * The push-gesture gate of the amplitude-modulation hand-tracking loop.
 *
 * Every poll the tracking service reports a list of hands. Each hand either
 * pushes (its palm velocity along the tracker's z axis is below -90) or not.
 * Two flags (`left_pressed`, `right_pressed`) and two hold counters
 * (`left_count`, `right_count`) decide, hand by hand, whether the hand gets a
 * haptic control point (`emitter.update`) and whether emission is stopped
 * (`emitter.stop`). A held side auto-releases once its counter, which only
 * passes for a hand of that side advance, reaches the hold limit of 40.
 *
 * The emitter calls are recorded as an `Event` trace; the palm geometry that
 * builds the control point is not modelled, so an update only names the side
 * of the hand it was emitted for.
 */
module PushGesture {

  /** `pressed_released_count`: passes a held side lasts before it is released. */
  const HoldLimit: int := 40

  datatype Side = Left | Right

  function Other(side: Side): (o: Side)
    ensures o != side
  {
    if side == Left then Right else Left
  }

  /** A tracked hand: its side, and whether its palm velocity is a push. */
  datatype Hand = Hand(side: Side, pushing: bool)

  /** What one pass asks of the emitter. */
  datatype Event = Update(side: Side) | Stop

  /** The four gesture variables of the loop. */
  datatype GateState = GateState(leftPressed: bool, rightPressed: bool, leftCount: int, rightCount: int)
  {
    function Pressed(side: Side): bool {
      if side == Left then leftPressed else rightPressed
    }

    function Count(side: Side): int {
      if side == Left then leftCount else rightCount
    }
  }

  /** The outcome of one or more passes: the new state and the events emitted. */
  datatype Pass = Pass(state: GateState, events: seq<Event>)

  /** One side's part of the invariant. The count is never reset on release,
      so an unpressed side has count 0 (never pressed) or the hold limit. */
  predicate SideInv(pressed: bool, count: int) {
    && 0 <= count <= HoldLimit
    && (pressed ==> count < HoldLimit)
    && (!pressed ==> count == 0 || count == HoldLimit)
  }

  predicate Inv(s: GateState) {
    SideInv(s.leftPressed, s.leftCount) && SideInv(s.rightPressed, s.rightCount)
  }

  /** The state the loop starts from. */
  function Init(): (s: GateState)
    ensures Inv(s)
    ensures !s.Pressed(Left) && !s.Pressed(Right) && s.Count(Left) == 0 && s.Count(Right) == 0
  {
    GateState(false, false, 0, 0)
  }

  /** A hand gets a control point if it pushes or its own side is already held. */
  predicate Qualifies(s: GateState, h: Hand) {
    h.pushing || (s.leftPressed && h.side == Left) || (s.rightPressed && h.side == Right)
  }

  /** The press/hold chain for a qualifying hand: a fresh press sets the flag
      and zeroes the count, a hold bumps the count; the other side is untouched. */
  function Register(s: GateState, h: Hand): (r: GateState)
    ensures r.Pressed(h.side)
    ensures r.Count(h.side) == if s.Pressed(h.side) then s.Count(h.side) + 1 else 0
    ensures r.Pressed(Other(h.side)) == s.Pressed(Other(h.side))
    ensures r.Count(Other(h.side)) == s.Count(Other(h.side))
  {
    if !s.leftPressed && h.side == Left then
      s.(leftPressed := true, leftCount := 0)
    else if s.leftPressed && h.side == Left then
      s.(leftCount := s.leftCount + 1)
    else if !s.rightPressed && h.side == Right then
      s.(rightPressed := true, rightCount := 0)
    else
      s.(rightCount := s.rightCount + 1)
  }

  /** The release check that follows every hand. Only a held side whose count
      has reached the limit is released, and at most one side per pass. */
  function Release(s: GateState): (r: GateState)
    ensures r.leftCount == s.leftCount && r.rightCount == s.rightCount
    ensures r.leftPressed ==> s.leftPressed
    ensures r.rightPressed ==> s.rightPressed
    ensures s.leftPressed && !r.leftPressed ==> s.leftCount == HoldLimit
    ensures s.rightPressed && !r.rightPressed ==> s.rightCount == HoldLimit
    ensures !(s.leftPressed && !r.leftPressed && s.rightPressed && !r.rightPressed)
    ensures s.leftPressed && s.leftCount == HoldLimit ==> !r.leftPressed
    ensures s.rightPressed && s.rightCount == HoldLimit && !(s.leftPressed && s.leftCount == HoldLimit)
            ==> !r.rightPressed
  {
    if s.leftPressed && s.leftCount == HoldLimit then
      s.(leftPressed := false)
    else if s.rightPressed && s.rightCount == HoldLimit then
      s.(rightPressed := false)
    else
      s
  }

  /** Stop is requested whenever both sides are unpressed after the release check. */
  function StopIfIdle(s: GateState): seq<Event> {
    if !s.leftPressed && !s.rightPressed then [Stop] else []
  }

  /** One pass of the loop over hands, for hand `h`. */
  function Step(s: GateState, h: Hand): (r: Pass)
    // one update, for the hand's own side, iff the hand qualifies, and a stop
    // iff both sides are unpressed at the end of the pass, after the update
    ensures (Update(h.side) in r.events) <==> h.pushing || s.Pressed(h.side)
    ensures Update(Other(h.side)) !in r.events
    ensures (Stop in r.events) <==> !r.state.leftPressed && !r.state.rightPressed
    ensures |r.events| == 2 ==> r.events == [Update(h.side), Stop]
    ensures |r.events| <= 2
    ensures Inv(s) ==> Inv(r.state)
  {
    var q := Qualifies(s, h);
    var registered := if q then Register(s, h) else s;
    var released := Release(registered);
    Pass(released, (if q then [Update(h.side)] else []) + StopIfIdle(released))
  }

  /** A press: a pushing hand whose side is not held holds it with count 0,
      so that pass never stops emission. */
  lemma StepPresses(s: GateState, h: Hand)
    requires h.pushing && !s.Pressed(h.side)
    ensures Step(s, h).state.Pressed(h.side) && Step(s, h).state.Count(h.side) == 0
    ensures Step(s, h).events == [Update(h.side)]
  {
  }

  /** A hold: a hand of a held side, pushing or not, bumps only its own count,
      and the side is released exactly when the count reaches the limit. */
  lemma StepHolds(s: GateState, h: Hand)
    requires Inv(s) && s.Pressed(h.side)
    ensures Step(s, h).state.Count(h.side) == s.Count(h.side) + 1
    ensures Step(s, h).state.Pressed(h.side) <==> s.Count(h.side) + 1 < HoldLimit
  {
  }

  /** The events of a hold pass: its update, and a stop when it releases the
      side while the other side is idle. */
  lemma HeldStepEvents(s: GateState, h: Hand)
    requires Inv(s) && s.Pressed(h.side)
    ensures Step(s, h).events ==
              [Update(h.side)] +
              (if s.Count(h.side) + 1 == HoldLimit && !s.Pressed(Other(h.side)) then [Stop] else [])
  {
  }

  /** A hand that neither pushes nor belongs to a held side changes nothing. */
  lemma StepIgnores(s: GateState, h: Hand)
    requires Inv(s) && !h.pushing && !s.Pressed(h.side)
    ensures Step(s, h).state == s
    ensures Update(h.side) !in Step(s, h).events
  {
  }

  /** A hand never changes the other side's flag or count: the release check
      can only fire for the side the hand just moved. */
  lemma StepKeepsOtherSide(s: GateState, h: Hand)
    requires Inv(s)
    ensures Step(s, h).state.Pressed(Other(h.side)) == s.Pressed(Other(h.side))
    ensures Step(s, h).state.Count(Other(h.side)) == s.Count(Other(h.side))
  {
  }

  /** The passes over a list of hands, one per hand, in order. */
  function Passes(s: GateState, hands: seq<Hand>): (r: Pass)
    ensures Inv(s) ==> Inv(r.state)
    ensures |r.events| <= 2 * |hands|
    decreases |hands|
  {
    if |hands| == 0 then
      Pass(s, [])
    else
      var first := Step(s, hands[0]);
      var rest := Passes(first.state, hands[1..]);
      Pass(rest.state, first.events + rest.events)
  }

  /** One poll: an empty hand list only stops the emitter. */
  function Frame(s: GateState, hands: seq<Hand>): (r: Pass)
    ensures |hands| == 0 ==> r.state == s && r.events == [Stop]
    ensures Inv(s) ==> Inv(r.state)
  {
    if |hands| == 0 then Pass(s, [Stop]) else Passes(s, hands)
  }

  /** A finite run of the polling loop. */
  function Frames(s: GateState, frames: seq<seq<Hand>>): (r: Pass)
    ensures Inv(s) ==> Inv(r.state)
    decreases |frames|
  {
    if |frames| == 0 then
      Pass(s, [])
    else
      var first := Frame(s, frames[0]);
      var rest := Frames(first.state, frames[1..]);
      Pass(rest.state, first.events + rest.events)
  }

  /** `n` updates for one side, one per pass. */
  function Updates(side: Side, n: nat): seq<Event> {
    if n == 0 then [] else [Update(side)] + Updates(side, n - 1)
  }

  /** How many updates for `side` a trace holds. */
  function UpdateCount(events: seq<Event>, side: Side): nat {
    if |events| == 0 then 0
    else (if events[0] == Update(side) then 1 else 0) + UpdateCount(events[1..], side)
  }

  lemma {:induction false} UpdateCountAppend(a: seq<Event>, b: seq<Event>, side: Side)
    ensures UpdateCount(a + b, side) == UpdateCount(a, side) + UpdateCount(b, side)
    decreases |a|
  {
    if |a| == 0 {
      assert a + b == b;
    } else {
      assert (a + b)[0] == a[0] && (a + b)[1..] == a[1..] + b;
      UpdateCountAppend(a[1..], b, side);
    }
  }

  /** One pass updates a side once if the hand is of that side and qualifies,
      and otherwise not at all. */
  lemma StepUpdateCount(s: GateState, h: Hand, side: Side)
    ensures UpdateCount(Step(s, h).events, side) ==
              if side == h.side && (h.pushing || s.Pressed(h.side)) then 1 else 0
  {
    var e := Step(s, h).events;
    if |e| == 2 {
      assert e[1..] == [Stop] && [Stop][1..] == [];
    } else if |e| == 1 {
      assert e[1..] == [];
    }
  }

  lemma {:induction false} UpdatesSnoc(side: Side, n: nat)
    ensures Updates(side, n + 1) == Updates(side, n) + [Update(side)]
  {
    if n > 0 {
      UpdatesSnoc(side, n - 1);
    }
  }

  predicate AllOn(hands: seq<Hand>, side: Side) {
    forall i :: 0 <= i < |hands| ==> hands[i].side == side
  }

  /** Appending one hand to the list adds one pass at the end. */
  lemma {:induction false} PassesSnoc(s: GateState, hands: seq<Hand>, h: Hand)
    ensures Passes(s, hands + [h]).state == Step(Passes(s, hands).state, h).state
    ensures Passes(s, hands + [h]).events == Passes(s, hands).events + Step(Passes(s, hands).state, h).events
    decreases |hands|
  {
    var first := Step(s, (hands + [h])[0]);
    if |hands| == 0 {
      assert hands + [h] == [h] && [h][1..] == [];
      assert Passes(s, hands) == Pass(s, []);
      assert Passes(first.state, []) == Pass(first.state, []);
      assert first.events + [] == first.events;
    } else {
      assert (hands + [h])[1..] == hands[1..] + [h];
      PassesSnoc(first.state, hands[1..], h);
      var mid := Passes(first.state, hands[1..]);
      var last := Step(mid.state, h);
      assert first.events + (mid.events + last.events) == (first.events + mid.events) + last.events;
    }
  }

  /** Appending one frame to a run adds one poll at the end. */
  lemma {:induction false} FramesSnoc(s: GateState, frames: seq<seq<Hand>>, f: seq<Hand>)
    ensures Frames(s, frames + [f]).state == Frame(Frames(s, frames).state, f).state
    ensures Frames(s, frames + [f]).events == Frames(s, frames).events + Frame(Frames(s, frames).state, f).events
    decreases |frames|
  {
    var first := Frame(s, (frames + [f])[0]);
    if |frames| == 0 {
      assert frames + [f] == [f] && [f][1..] == [];
      assert Frames(s, frames) == Pass(s, []);
      assert Frames(first.state, []) == Pass(first.state, []);
      assert first.events + [] == first.events;
    } else {
      assert (frames + [f])[1..] == frames[1..] + [f];
      FramesSnoc(first.state, frames[1..], f);
      var mid := Frames(first.state, frames[1..]);
      var last := Frame(mid.state, f);
      assert first.events + (mid.events + last.events) == (first.events + mid.events) + last.events;
    }
  }

  /** Hands of one side never touch the other side's flag or count. */
  lemma {:induction false} OtherSideUntouched(s: GateState, side: Side, hands: seq<Hand>)
    requires Inv(s) && AllOn(hands, side)
    ensures Passes(s, hands).state.Pressed(Other(side)) == s.Pressed(Other(side))
    ensures Passes(s, hands).state.Count(Other(side)) == s.Count(Other(side))
    decreases |hands|
  {
    if |hands| > 0 {
      var first := Step(s, hands[0]);
      OtherSideUntouched(first.state, side, hands[1..]);
    }
  }

  /** Holding: every hand of a held side, pushing or not, gets one update and
      bumps the count by one, until the count reaches the limit and the side is
      released; the other side is left as it was. */
  lemma {:induction false} HoldCountsUp(s: GateState, side: Side, hands: seq<Hand>)
    requires Inv(s) && s.Pressed(side) && AllOn(hands, side)
    requires |hands| <= HoldLimit - s.Count(side)
    ensures Passes(s, hands).state.Count(side) == s.Count(side) + |hands|
    ensures Passes(s, hands).state.Pressed(side) <==> |hands| < HoldLimit - s.Count(side)
    ensures UpdateCount(Passes(s, hands).events, side) == |hands|
    decreases |hands|
  {
    if |hands| > 0 {
      var first := Step(s, hands[0]);
      var rest := hands[1..];
      var tail := Passes(first.state, rest);
      assert Passes(s, hands) == Pass(tail.state, first.events + tail.events);
      assert UpdateCount(first.events, side) == 1 && Inv(first.state)
          && first.state.Count(side) == s.Count(side) + 1
          && (first.state.Pressed(side) <==> s.Count(side) + 1 < HoldLimit) by {
        StepHolds(s, hands[0]);
        StepUpdateCount(s, hands[0], side);
      }
      if |rest| > 0 {
        assert tail.state.Count(side) == s.Count(side) + |hands|
            && (tail.state.Pressed(side) <==> |hands| < HoldLimit - s.Count(side))
            && UpdateCount(tail.events, side) == |rest| by {
          HoldCountsUp(first.state, side, rest);
        }
        UpdateCountAppend(first.events, tail.events, side);
      } else {
        assert tail == Pass(first.state, []);
        assert first.events + [] == first.events;
      }
    }
  }

  /** With the other side idle, a hold that does not yet reach the limit emits
      nothing but its updates: emission is never stopped in between. */
  lemma {:induction false} HoldTrace(s: GateState, side: Side, hands: seq<Hand>)
    requires Inv(s) && s.Pressed(side) && !s.Pressed(Other(side)) && AllOn(hands, side)
    requires |hands| < HoldLimit - s.Count(side)
    ensures Passes(s, hands).events == Updates(side, |hands|)
    decreases |hands|
  {
    if |hands| > 0 {
      var first := Step(s, hands[0]);
      var rest := hands[1..];
      var tail := Passes(first.state, rest);
      assert Passes(s, hands).events == first.events + tail.events;
      assert first.events == [Update(side)] by {
        HeldStepEvents(s, hands[0]);
      }
      assert tail.events == Updates(side, |rest|) by {
        StepHolds(s, hands[0]);
        StepKeepsOtherSide(s, hands[0]);
        HoldTrace(first.state, side, rest);
      }
    }
  }

  /** No hand of the list is a push on `side`. */
  predicate NoPush(hands: seq<Hand>, side: Side) {
    forall i :: 0 <= i < |hands| ==> !(hands[i].side == side && hands[i].pushing)
  }

  /** How many more updates the current hold of `side` can give: the passes
      it has left when held, none when not. */
  function Remaining(s: GateState, side: Side): int {
    if s.Pressed(side) then HoldLimit - s.Count(side) else 0
  }

  /** Without a new push on a side, that side gets at most as many updates as
      its hold has passes left, and none when it is not held; every update
      uses up one of those passes. Hands of the other side, pushing or not,
      may be interleaved anywhere. */
  lemma {:induction false} NoPushBound(s: GateState, side: Side, hands: seq<Hand>)
    requires Inv(s) && NoPush(hands, side)
    ensures UpdateCount(Passes(s, hands).events, side) <= Remaining(s, side)
    ensures UpdateCount(Passes(s, hands).events, side) + Remaining(Passes(s, hands).state, side)
              <= Remaining(s, side)
    decreases |hands|
  {
    if |hands| > 0 {
      var h := hands[0];
      var first := Step(s, h);
      var tail := Passes(first.state, hands[1..]);
      assert Passes(s, hands) == Pass(tail.state, first.events + tail.events);
      UpdateCountAppend(first.events, tail.events, side);
      StepUpdateCount(s, h, side);
      if h.side != side {
        assert Other(h.side) == side;
        StepKeepsOtherSide(s, h);
      } else if s.Pressed(side) {
        StepHolds(s, h);
      } else {
        StepIgnores(s, h);
      }
      assert NoPush(hands[1..], side);
      NoPushBound(first.state, side, hands[1..]);
    }
  }

  /** One poll without a push on `side`: the bound of `NoPushBound`, with an
      empty poll giving no update and leaving the hold as it was. */
  lemma {:induction false} FrameNoPushBound(s: GateState, side: Side, hands: seq<Hand>)
    requires Inv(s) && NoPush(hands, side)
    ensures UpdateCount(Frame(s, hands).events, side) + Remaining(Frame(s, hands).state, side)
              <= Remaining(s, side)
  {
    if |hands| == 0 {
      assert [Stop][1..] == [];
    } else {
      NoPushBound(s, side, hands);
    }
  }

  /** A run of polls without a push on `side` gives that side at most as many
      updates as its hold has passes left, however the polls are split. */
  lemma {:induction false} FramesNoPushBound(s: GateState, side: Side, frames: seq<seq<Hand>>)
    requires Inv(s)
    requires forall i :: 0 <= i < |frames| ==> NoPush(frames[i], side)
    ensures UpdateCount(Frames(s, frames).events, side) + Remaining(Frames(s, frames).state, side)
              <= Remaining(s, side)
    decreases |frames|
  {
    if |frames| > 0 {
      var first := Frame(s, frames[0]);
      var tail := Frames(first.state, frames[1..]);
      assert Frames(s, frames) == Pass(tail.state, first.events + tail.events);
      UpdateCountAppend(first.events, tail.events, side);
      FrameNoPushBound(s, side, frames[0]);
      FramesNoPushBound(first.state, side, frames[1..]);
    }
  }

  /** One push buys a side at most 41 updates: the pressing pass and 40
      holding passes, whatever hands of the other side come in between. */
  lemma {:induction false} AtMostFortyOneUpdatesPerPush(s: GateState, side: Side, hands: seq<Hand>)
    requires Inv(s) && |hands| > 0 && hands[0] == Hand(side, true) && NoPush(hands[1..], side)
    ensures UpdateCount(Passes(s, hands).events, side) <= HoldLimit + 1
  {
    var first := Step(s, hands[0]);
    var tail := Passes(first.state, hands[1..]);
    assert Passes(s, hands).events == first.events + tail.events;
    UpdateCountAppend(first.events, tail.events, side);
    StepUpdateCount(s, hands[0], side);
    NoPushBound(first.state, side, hands[1..]);
  }

  /** The same bound over a run of polls: from the pass of a push on `side`
      (the start of the first poll), with no further push on that side in
      that poll or any later one, the side gets at most 41 updates. */
  lemma {:induction false} RunAtMostFortyOneUpdatesPerPush(s: GateState, side: Side, frames: seq<seq<Hand>>)
    requires Inv(s) && |frames| > 0 && |frames[0]| > 0 && frames[0][0] == Hand(side, true)
    requires NoPush(frames[0][1..], side)
    requires forall i :: 1 <= i < |frames| ==> NoPush(frames[i], side)
    ensures UpdateCount(Frames(s, frames).events, side) <= HoldLimit + 1
  {
    var first := Frame(s, frames[0]);
    var tail := Frames(first.state, frames[1..]);
    assert Frames(s, frames) == Pass(tail.state, first.events + tail.events);
    UpdateCountAppend(first.events, tail.events, side);
    assert UpdateCount(tail.events, side) <= Remaining(first.state, side) by {
      FramesNoPushBound(first.state, side, frames[1..]);
    }
    // the push itself leaves the side held, so the first poll's updates and
    // the hold it leaves add up to at most 41
    var pressed := Step(s, frames[0][0]);
    var rest := Passes(pressed.state, frames[0][1..]);
    assert first == Pass(rest.state, pressed.events + rest.events);
    UpdateCountAppend(pressed.events, rest.events, side);
    StepUpdateCount(s, frames[0][0], side);
    NoPushBound(pressed.state, side, frames[0][1..]);
  }

  /** A held side whose hand has left the view while the other hand stays idle
      is never released: every pass for the other hand changes nothing and
      emits nothing, neither an update nor a stop. */
  lemma {:induction false} StuckHold(s: GateState, side: Side, hands: seq<Hand>)
    requires Inv(s) && s.Pressed(side) && !s.Pressed(Other(side))
    requires forall i :: 0 <= i < |hands| ==> hands[i] == Hand(Other(side), false)
    ensures Passes(s, hands) == Pass(s, [])
    decreases |hands|
  {
    if |hands| > 0 {
      var first := Step(s, hands[0]);
      assert first == Pass(s, []) by {
        StepIgnores(s, hands[0]);
        assert Other(Other(side)) == side;
      }
      StuckHold(s, side, hands[1..]);
      assert Passes(s, hands).events == [] + [];
    }
  }

  /** A press followed by 40 more hands of that side stays held through the
      first 40 passes and is released by the 41st, after 41 updates. */
  lemma {:induction false} PressHoldRelease(s: GateState, side: Side, hands: seq<Hand>)
    requires Inv(s) && !s.Pressed(side) && AllOn(hands, side)
    requires |hands| == HoldLimit + 1 && hands[0].pushing
    ensures !Passes(s, hands).state.Pressed(side)
    ensures UpdateCount(Passes(s, hands).events, side) == HoldLimit + 1
    ensures forall n :: 1 <= n <= HoldLimit ==> Passes(s, hands[..n]).state.Pressed(side)
  {
    var first := Step(s, hands[0]);
    assert first.events == [Update(side)] && Inv(first.state) by {
      assert Qualifies(s, hands[0]);
    }
    assert first.state.Pressed(side) && first.state.Count(side) == 0;
    var held := Passes(first.state, hands[1..]);
    assert Passes(s, hands) == Pass(held.state, first.events + held.events);
    assert !held.state.Pressed(side) && UpdateCount(held.events, side) == HoldLimit by {
      HoldCountsUp(first.state, side, hands[1..]);
    }
    UpdateCountAppend(first.events, held.events, side);
    forall n | 1 <= n <= HoldLimit
      ensures Passes(s, hands[..n]).state.Pressed(side)
    {
      assert hands[..n][0] == hands[0] && hands[..n][1..] == hands[1..n];
      assert Passes(s, hands[..n]).state == Passes(first.state, hands[1..n]).state;
      HoldCountsUp(first.state, side, hands[1..n]);
    }
  }

  /** The frames of a run where each frame holds exactly the given hand. */
  function Singletons(hands: seq<Hand>): (fs: seq<seq<Hand>>)
    ensures |fs| == |hands|
    ensures forall i :: 0 <= i < |hands| ==> fs[i] == [hands[i]]
  {
    seq(|hands|, i requires 0 <= i < |hands| => [hands[i]])
  }

  /** A run of one-hand frames is the same as one frame with all those hands. */
  lemma {:induction false} SingletonFrames(s: GateState, hands: seq<Hand>)
    ensures Frames(s, Singletons(hands)) == Passes(s, hands)
    decreases |hands|
  {
    if |hands| > 0 {
      var first := Step(s, hands[0]);
      assert Singletons(hands)[1..] == Singletons(hands[1..]);
      assert Passes(first.state, [hands[0]][1..]) == Pass(first.state, []);
      assert first.events + [] == first.events;
      SingletonFrames(first.state, hands[1..]);
    }
  }

  /** With both sides idle, a push followed by up to 39 more hands of that side
      gives one update per hand and no stop; the side stays held with one count
      per hold, and the other side keeps its state. */
  lemma {:induction false} PressAndHold(s: GateState, side: Side, hands: seq<Hand>)
    requires Inv(s) && !s.Pressed(side) && !s.Pressed(Other(side))
    requires 0 < |hands| <= HoldLimit && hands[0] == Hand(side, true) && AllOn(hands, side)
    ensures Passes(s, hands).events == Updates(side, |hands|)
    ensures Inv(Passes(s, hands).state)
    ensures Passes(s, hands).state.Pressed(side) && Passes(s, hands).state.Count(side) == |hands| - 1
    ensures !Passes(s, hands).state.Pressed(Other(side))
    ensures Passes(s, hands).state.Count(Other(side)) == s.Count(Other(side))
  {
    var pressed := Step(s, hands[0]);
    var rest := hands[1..];
    var held := Passes(pressed.state, rest);
    assert Passes(s, hands) == Pass(held.state, pressed.events + held.events);
    assert pressed.events == [Update(side)] && Inv(pressed.state)
        && pressed.state.Pressed(side) && pressed.state.Count(side) == 0
        && !pressed.state.Pressed(Other(side))
        && pressed.state.Count(Other(side)) == s.Count(Other(side)) by {
      StepPresses(s, hands[0]);
      StepKeepsOtherSide(s, hands[0]);
    }
    assert held.events == Updates(side, |rest|)
        && held.state.Pressed(side) && held.state.Count(side) == |rest|
        && !held.state.Pressed(Other(side))
        && held.state.Count(Other(side)) == s.Count(Other(side)) by {
      assert AllOn(rest, side);
      HoldTrace(pressed.state, side, rest);
      HoldCountsUp(pressed.state, side, rest);
      OtherSideUntouched(pressed.state, side, rest);
    }
  }

  /** With both sides idle, a push and 40 more hands of that side give 41
      updates and then one stop; the side ends released with its count at the
      limit, and the other side keeps its state. */
  lemma {:induction false} PushFromIdle(s: GateState, side: Side, hands: seq<Hand>)
    requires Inv(s) && !s.Pressed(side) && !s.Pressed(Other(side))
    requires |hands| == HoldLimit + 1 && hands[0] == Hand(side, true) && AllOn(hands, side)
    ensures Passes(s, hands).events == Updates(side, HoldLimit + 1) + [Stop]
    ensures !Passes(s, hands).state.Pressed(side) && Passes(s, hands).state.Count(side) == HoldLimit
    ensures Passes(s, hands).state.Pressed(Other(side)) == s.Pressed(Other(side))
    ensures Passes(s, hands).state.Count(Other(side)) == s.Count(Other(side))
  {
    var init := hands[..HoldLimit];
    assert init + [hands[HoldLimit]] == hands;
    var held := Passes(s, init);
    assert held.events == Updates(side, HoldLimit) && Inv(held.state)
        && held.state.Pressed(side) && held.state.Count(side) == HoldLimit - 1
        && !held.state.Pressed(Other(side))
        && held.state.Count(Other(side)) == s.Count(Other(side)) by {
      assert init[0] == hands[0] && AllOn(init, side);
      PressAndHold(s, side, init);
    }
    // the 40th hold reaches the limit and releases the side
    var last := Step(held.state, hands[HoldLimit]);
    assert last.events == [Update(side), Stop]
        && !last.state.Pressed(side) && last.state.Count(side) == HoldLimit
        && !last.state.Pressed(Other(side))
        && last.state.Count(Other(side)) == s.Count(Other(side)) by {
      HeldStepEvents(held.state, hands[HoldLimit]);
      StepHolds(held.state, hands[HoldLimit]);
      StepKeepsOtherSide(held.state, hands[HoldLimit]);
    }
    assert Passes(s, hands) == Pass(last.state, held.events + last.events) by {
      PassesSnoc(s, init, hands[HoldLimit]);
    }
    assert held.events + last.events == Updates(side, HoldLimit + 1) + [Stop] by {
      UpdatesSnoc(side, HoldLimit);
    }
  }

  /** From start-up: a frame without hands, a frame with a pushing hand, then
      40 frames with that side's hand alone, pushing or not. Emission is stopped
      before, active for 41 passes, and stopped again at the release; the side
      ends released and the other side was never touched. */
  lemma {:induction false} PushScenario(side: Side, hands: seq<Hand>)
    requires |hands| == HoldLimit + 1 && hands[0] == Hand(side, true) && AllOn(hands, side)
    ensures Frames(Init(), [[]] + Singletons(hands)).events == [Stop] + Updates(side, HoldLimit + 1) + [Stop]
    ensures !Frames(Init(), [[]] + Singletons(hands)).state.Pressed(side)
    ensures Frames(Init(), [[]] + Singletons(hands)).state.Count(side) == HoldLimit
    ensures !Frames(Init(), [[]] + Singletons(hands)).state.Pressed(Other(side))
    ensures Frames(Init(), [[]] + Singletons(hands)).state.Count(Other(side)) == 0
  {
    var frames := [[]] + Singletons(hands);
    assert frames[0] == [] && frames[1..] == Singletons(hands);
    var idle := Frame(Init(), frames[0]);
    assert idle == Pass(Init(), [Stop]);
    SingletonFrames(Init(), hands);
    PushFromIdle(Init(), side, hands);
  }

  /** The gesture variables of the loop, updated in place hand by hand. */
  class GestureGate {
    var leftPressed: bool
    var rightPressed: bool
    var leftCount: int
    var rightCount: int

    function State(): GateState
      reads this
    {
      GateState(leftPressed, rightPressed, leftCount, rightCount)
    }

    ghost predicate Valid()
      reads this
    {
      Inv(State())
    }

    constructor ()
      ensures Valid() && State() == Init()
    {
      leftPressed, rightPressed := false, false;
      leftCount, rightCount := 0, 0;
    }

    /** One pass of the loop over hands: press or hold, update, release check, stop check. */
    method ProcessHand(h: Hand) returns (events: seq<Event>)
      requires Valid()
      modifies this
      ensures Valid()
      ensures Pass(State(), events) == Step(old(State()), h)
    {
      events := [];
      if h.pushing || (leftPressed && h.side == Left) || (rightPressed && h.side == Right) {
        if !leftPressed && h.side == Left {
          leftPressed := true;
          leftCount := 0;
        } else if leftPressed && h.side == Left {
          leftCount := leftCount + 1;
        } else if !rightPressed && h.side == Right {
          rightPressed := true;
          rightCount := 0;
        } else if rightPressed && h.side == Right {
          rightCount := rightCount + 1;
        }
        events := events + [Update(h.side)];
      }
      if leftPressed && leftCount == HoldLimit {
        leftPressed := false;
      } else if rightPressed && rightCount == HoldLimit {
        rightPressed := false;
      }
      if !leftPressed && !rightPressed {
        events := events + [Stop];
      }
    }

    /** One poll of the tracking service with the hands it reported. */
    method ProcessFrame(hands: seq<Hand>) returns (events: seq<Event>)
      requires Valid()
      modifies this
      ensures Valid()
      ensures Pass(State(), events) == Frame(old(State()), hands)
    {
      if |hands| == 0 {
        events := [Stop];
        return;
      }
      ghost var s0 := State();
      events := [];
      var i := 0;
      while i < |hands|
        invariant 0 <= i <= |hands|
        invariant Valid()
        invariant Pass(State(), events) == Passes(s0, hands[..i])
      {
        var e := ProcessHand(hands[i]);
        events := events + e;
        assert Pass(State(), events) == Passes(s0, hands[..i + 1]) by {
          assert hands[..i + 1] == hands[..i] + [hands[i]];
          PassesSnoc(s0, hands[..i], hands[i]);
        }
        i := i + 1;
      }
      assert hands[..i] == hands;
    }

    /** The polling loop over a finite sequence of frames. */
    method Run(frames: seq<seq<Hand>>) returns (events: seq<Event>)
      requires Valid()
      modifies this
      ensures Valid()
      ensures Pass(State(), events) == Frames(old(State()), frames)
    {
      events := [];
      var i := 0;
      while i < |frames|
        invariant 0 <= i <= |frames|
        invariant Valid()
        invariant Pass(State(), events) == Frames(old(State()), frames[..i])
      {
        FramesSnoc(old(State()), frames[..i], frames[i]);
        var e := ProcessFrame(frames[i]);
        events := events + e;
        assert frames[..i + 1] == frames[..i] + [frames[i]];
        i := i + 1;
      }
      assert frames[..i] == frames;
    }
  }
}
