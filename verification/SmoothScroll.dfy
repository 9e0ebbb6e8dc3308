/** The launcher's scroll animation, over exact reals. */
module SmoothScroll {
  const DURATION: real := 0.12

  datatype Scroll = Scroll(position: real, target: real, start: real, startTime: real, lastTime: real, maximum: int)

  function Max(a: real, b: real): real { if a < b then b else a }
  function Min(a: real, b: real): real { if b < a then b else a }
  function Clamp(x: real, low: real, high: real): real { if x < low then low else if high < x then high else x }

  predicate Active(s: Scroll) { s.position != s.target }

  function Bounded(s: Scroll, position: real): real { Clamp(position, 0.0, s.maximum as real) }

  const INITIAL: Scroll := Scroll(0.0, 0.0, 0.0, 0.0, 0.0, 0)

  function Jump(s: Scroll, position: real): Scroll {
    var p := Bounded(s, position);
    Scroll(p, p, p, 0.0, 0.0, s.maximum)
  }

  function Reset(s: Scroll, position: real, maximum: int): Scroll {
    Jump(s.(maximum := if maximum < 0 then 0 else maximum), position)
  }

  /** The share of the way that is behind after the share `t` of the time: fast first, slow last. */
  function Eased(t: real): real { 1.0 - Cube(1.0 - t) }

  function Cube(remaining: real): real { remaining * remaining * remaining }

  function Mul(a: real, b: real): real { a * b }

  /** The share of the duration that has passed. */
  function Elapsed(s: Scroll, time: real): real { (time - s.startTime) / DURATION }

  function Along(s: Scroll, now: real): real {
    if now >= s.startTime + DURATION then s.target
    else
      var t := Clamp(Elapsed(s, now), 0.0, 1.0);
      Clamp(s.start + Mul(s.target - s.start, Eased(t)), Min(s.start, s.target), Max(s.start, s.target))
  }

  function Advance(s: Scroll, now: real): Scroll {
    if !Active(s) then s
    else
      var time := Max(now, s.lastTime);
      s.(lastTime := time, position := Along(s, time))
  }

  /** When input at `now` takes effect: never before the last step of a running animation. */
  function Effective(s: Scroll, now: real): real { if Active(s) then Max(now, s.lastTime) else now }

  /** Where input by `delta` leads: from the target, or from the position when it reverses. */
  function NextTarget(s: Scroll, delta: real): real {
    var pending := s.target - s.position;
    var reversing := (pending > 0.0 && delta < 0.0) || (pending < 0.0 && delta > 0.0);
    Bounded(s, (if reversing then s.position else s.target) + delta)
  }

  function MoveBy(s: Scroll, delta: real, now: real): Scroll {
    if delta == 0.0 then s
    else
      var time := Effective(s, now);
      var here := Advance(s, time);
      var next := NextTarget(here, delta);
      if next == here.target then here
      else here.(start := here.position, target := next, startTime := time, lastTime := time)
  }

  datatype Event =
    | ResetTo(position: real, maximum: int)
    | JumpTo(position: real)
    | Move(delta: real, now: real)
    | Step(now: real)

  function Apply(s: Scroll, e: Event): Scroll {
    match e
    case ResetTo(position, maximum) => Reset(s, position, maximum)
    case JumpTo(position) => Jump(s, position)
    case Move(delta, now) => MoveBy(s, delta, now)
    case Step(now) => Advance(s, now)
  }

  function Run(s: Scroll, events: seq<Event>): Scroll
    decreases |events|
  {
    if events == [] then s else Run(Apply(s, events[0]), events[1..])
  }

  // ---- the easing curve ----

  lemma Positive(a: real, b: real)
    requires 0.0 < a && 0.0 < b
    ensures 0.0 < a * b
  {
  }

  lemma Distributes(d: real, x: real, y: real)
    ensures d * (y - x) == d * y - d * x
  {
  }

  lemma MulLaws(d: real, x: real)
    ensures Mul(d, 0.0) == 0.0 && Mul(d, 1.0) == d && Mul(0.0, x) == 0.0 && Mul(-d, x) == -Mul(d, x)
  {
  }

  lemma MulGrows(d: real, x: real, y: real)
    requires 0.0 < d && x < y
    ensures Mul(d, x) < Mul(d, y)
  {
    Positive(d, y - x);
    Distributes(d, x, y);
  }

  lemma CubeIsMul(r: real)
    ensures Cube(r) == Mul(r, Mul(r, r))
  {
  }

  lemma MulCommutes(a: real, b: real)
    ensures Mul(a, b) == Mul(b, a)
  {
  }

  /** Squares and cubes of numbers between zero and one. */
  lemma CubeShrinks(r: real)
    requires 0.0 <= r <= 1.0
    ensures 0.0 <= Cube(r) <= 1.0
    ensures r < 1.0 ==> Cube(r) < 1.0
    ensures Cube(0.0) == 0.0 && Cube(1.0) == 1.0
    ensures 0.0 < r ==> 0.0 < Cube(r)
  {
    CubeIsMul(r);
    CubeIsMul(0.0);
    CubeIsMul(1.0);
    MulLaws(r, r);
    MulLaws(1.0, 1.0);
    MulLaws(0.0, 0.0);
    MulLaws(r, Mul(r, r));
    hide Cube, Mul;
    if 0.0 < r < 1.0 {
      MulGrows(r, 0.0, r);
      MulGrows(r, r, 1.0);
      MulGrows(r, 0.0, Mul(r, r));
      MulGrows(r, Mul(r, r), 1.0);
    }
  }

  lemma CubeGrows(a: real, b: real)
    requires 0.0 <= a < b
    ensures Cube(a) < Cube(b)
  {
    CubeIsMul(a);
    CubeIsMul(b);
    MulLaws(b, 0.0);
    MulLaws(a, Mul(a, a));
    MulLaws(0.0, Mul(a, a));
    hide Cube, Mul;
    MulGrows(b, a, b);
    MulCommutes(a, b);
    if a > 0.0 {
      MulGrows(a, a, b);
      MulLaws(a, 0.0);
      MulGrows(a, 0.0, a);
      MulGrows(b, Mul(a, a), Mul(b, b));
      MulGrows(Mul(a, a), a, b);
      MulCommutes(Mul(a, a), a);
      MulCommutes(Mul(a, a), b);
    } else {
      MulGrows(b, 0.0, b);
      MulGrows(b, 0.0, Mul(b, b));
    }
  }

  /** Within the time the eased share grows from zero, and reaches one only at the end. */
  lemma EasedGrows(t: real, u: real)
    requires 0.0 <= t <= u <= 1.0
    ensures 0.0 <= Eased(t) <= Eased(u) <= 1.0
    ensures t < 1.0 ==> Eased(t) < 1.0
    ensures Eased(0.0) == 0.0
  {
    hide Cube;
    CubeShrinks(1.0 - t);
    CubeShrinks(1.0 - u);
    if t < u { CubeGrows(1.0 - u, 1.0 - t); }
  }

  function At(start: real, target: real, share: real): real { start + Mul(target - start, share) }

  /** Points of the way keep their order, stay on it, and only the last is the target. */
  lemma Between(a: real, b: real, k: real, l: real)
    requires 0.0 <= k <= l <= 1.0
    ensures var x, y := At(a, b, k), At(a, b, l);
            && Min(a, b) <= x <= Max(a, b) && Min(a, b) <= y <= Max(a, b)
            && Min(x, b) <= y <= Max(x, b)
            && (k < 1.0 && a != b ==> x != b)
  {
    hide Mul;
    if a <= b {
      Shares(b - a, k, l);
    } else {
      Shares(a - b, k, l);
      MulLaws(a - b, k);
      MulLaws(a - b, l);
      assert -(a - b) == b - a;
    }
  }

  lemma Shares(d: real, k: real, l: real)
    requires 0.0 <= d && 0.0 <= k <= l <= 1.0
    ensures 0.0 <= Mul(d, k) <= Mul(d, l) <= d
    ensures d > 0.0 && k < 1.0 ==> Mul(d, k) < d
  {
    MulLaws(d, k);
    MulLaws(d, l);
    hide Mul;
    if d > 0.0 {
      if 0.0 < k { MulGrows(d, 0.0, k); }
      if k < l { MulGrows(d, k, l); }
      if l < 1.0 { MulGrows(d, l, 1.0); }
    }
  }

  // ---- invariants of every run ----

  /** The share of the way that an animation has covered at `time`. */
  function Share(s: Scroll, time: real): real { Eased(Elapsed(s, time)) }

  /** What holds after every event. */
  predicate Sound(s: Scroll) {
    && 0 <= s.maximum
    && 0.0 <= s.position <= s.maximum as real && 0.0 <= s.target <= s.maximum as real
    && 0.0 <= s.start <= s.maximum as real
    && Min(s.start, s.target) <= s.position <= Max(s.start, s.target)
    && (Active(s) ==> s.startTime <= s.lastTime < s.startTime + DURATION
                      && s.position == At(s.start, s.target, Share(s, s.lastTime)))
  }

  /** Within the time neither clamp of the interpolation has an effect. */
  lemma AlongIsShare(s: Scroll, time: real)
    requires s.startTime <= time < s.startTime + DURATION
    ensures 0.0 <= Share(s, time) < 1.0 && Along(s, time) == At(s.start, s.target, Share(s, time))
  {
    hide Mul, Eased;
    ElapsedShare(s, time);
    var t := Elapsed(s, time);
    EasedGrows(t, t);
    Between(s.start, s.target, Eased(t), Eased(t));
    hide Elapsed;
  }

  lemma ElapsedShare(s: Scroll, time: real)
    requires s.startTime <= time < s.startTime + DURATION
    ensures 0.0 <= Elapsed(s, time) < 1.0
  {
  }

  lemma ElapsedGrows(s: Scroll, a: real, b: real)
    requires a <= b
    ensures Elapsed(s, a) <= Elapsed(s, b)
  {
  }

  /** One step of a running animation: it goes towards the target and never past it; it ends on the
      target exactly when the time is up. */
  lemma StepMoves(s: Scroll, now: real)
    requires Sound(s) && Active(s)
    ensures var n, time := Advance(s, now), Max(now, s.lastTime);
            && Sound(n)
            && Min(s.position, s.target) <= n.position <= Max(s.position, s.target)
            && (n.position == s.target <==> time >= s.startTime + DURATION)
  {
    hide Mul, Eased, Elapsed, At, Along;
    var time := Max(now, s.lastTime);
    if time >= s.startTime + DURATION {
      AlongEnds(s, time);
    } else {
      AlongIsShare(s, time);
      AlongIsShare(s, s.lastTime);
      ElapsedShare(s, s.lastTime);
      ElapsedShare(s, time);
      ElapsedGrows(s, s.lastTime, time);
      EasedGrows(Elapsed(s, s.lastTime), Elapsed(s, time));
      StartDiffers(s);
      Between(s.start, s.target, Share(s, s.lastTime), Share(s, time));
      Between(s.start, s.target, Share(s, time), Share(s, time));
      SameShare(s, Advance(s, now), time);
    }
  }

  lemma AlongEnds(s: Scroll, time: real)
    requires time >= s.startTime + DURATION
    ensures Along(s, time) == s.target
  {
    hide Mul, Eased, Elapsed;
  }

  lemma SameShare(s: Scroll, n: Scroll, time: real)
    requires s.startTime == n.startTime
    ensures Share(s, time) == Share(n, time)
  {
    hide Eased;
  }

  lemma StartDiffers(s: Scroll)
    requires Sound(s) && Active(s)
    ensures s.start != s.target
  {
  }

  lemma AdvanceKeeps(s: Scroll, now: real)
    requires Sound(s)
    ensures Sound(Advance(s, now))
  {
    if Active(s) { StepMoves(s, now); }
  }

  lemma FreshIsSound(s: Scroll, next: real, time: real)
    requires Sound(s) && 0.0 <= next <= s.maximum as real
    ensures Sound(s.(start := s.position, target := next, startTime := time, lastTime := time))
  {
    var n := s.(start := s.position, target := next, startTime := time, lastTime := time);
    hide Mul, Eased;
    EasedGrows(0.0, 0.0);
    NoneElapsed(n);
    hide Elapsed;
    NoneCovered(s.position, next);
  }

  lemma NoneElapsed(s: Scroll)
    ensures Elapsed(s, s.startTime) == 0.0
  {
  }

  lemma NoneCovered(start: real, target: real)
    ensures At(start, target, 0.0) == start
  {
    MulLaws(target - start, 0.0);
    hide Mul;
  }

  lemma ApplyKeeps(s: Scroll, e: Event)
    requires Sound(s)
    ensures Sound(Apply(s, e))
  {
    hide Along, Share, At, Mul;
    match e
    case ResetTo(position, maximum) =>
    case JumpTo(position) =>
    case Step(now) => AdvanceKeeps(s, now);
    case Move(delta, now) =>
      if delta != 0.0 {
        var time := Effective(s, now);
        AdvanceKeeps(s, time);
        hide Advance, Sound;
        SoundBounds(Advance(s, time));
        FreshIsSound(Advance(s, time), NextTarget(Advance(s, time), delta), time);
      }
  }

  lemma SoundBounds(s: Scroll)
    requires Sound(s)
    ensures forall p: real :: 0.0 <= Bounded(s, p) <= s.maximum as real
  {
  }

  /** Whatever the events and their timestamps: position and target stay within the range, and the
      position between start and target. */
  lemma {:induction false} RunsAreSound(s: Scroll, events: seq<Event>)
    requires Sound(s)
    ensures Sound(Run(s, events))
    decreases |events|
  {
    hide Sound;
    if events != [] {
      ApplyKeeps(s, events[0]);
      RunsAreSound(Apply(s, events[0]), events[1..]);
    }
  }

  lemma InitialIsSound()
    ensures Sound(INITIAL)
  {
  }

  /** The same for a new object. */
  lemma RunsFromInitialAreSound(events: seq<Event>)
    ensures Sound(Run(INITIAL, events))
  {
    InitialIsSound();
    RunsAreSound(INITIAL, events);
  }

  // ---- where input leads ----

  predicate Way(x: real, target: real, maximum: int) {
    && 0.0 <= target <= maximum as real
    && (0.0 <= x <= maximum as real ==> target == x)
    && (x < 0.0 ==> target == 0.0)
    && (x > maximum as real ==> target == maximum as real)
  }

  /** Input with the pending way, or at rest, adds to the target; input against it starts from where the
      animation is. Then the way begins anew, unless the target stays. */
  lemma MovesLead(s: Scroll, delta: real, now: real)
    requires Sound(s) && delta != 0.0
    ensures var time := if Active(s) then Max(now, s.lastTime) else now;
            var here, n := Advance(s, now), Apply(s, Move(delta, now));
            && n.position == here.position && n.maximum == s.maximum
            && (if (here.target - here.position) * delta < 0.0 then Way(here.position + delta, n.target, s.maximum)
                else Way(here.target + delta, n.target, s.maximum))
            && (if n.target == here.target then n == here
                else n.start == here.position && n.startTime == time && n.lastTime == time)
  {
    var time := Effective(s, now);
    AdvanceKeeps(s, now);
    hide Along, Sound, At, Share;
    assert Advance(s, time) == Advance(s, now);
    var here := Advance(s, now);
    SignOfProduct(here.target - here.position, delta);
    SoundBounds(here) by { AdvanceKeeps(s, now); }
    assert here.maximum == s.maximum && 0 <= s.maximum by { SoundMaximum(s); }
  }

  lemma SoundMaximum(s: Scroll)
    requires Sound(s)
    ensures 0 <= s.maximum
  {
  }

  lemma SignOfProduct(x: real, y: real)
    ensures x * y < 0.0 <==> (x > 0.0 && y < 0.0) || (x < 0.0 && y > 0.0)
  {
    if x > 0.0 && y < 0.0 { Positive(x, -y); assert x * -y == -(x * y); }
    if x < 0.0 && y > 0.0 { Positive(-x, y); assert -x * y == -(x * y); }
    if x > 0.0 && y > 0.0 { Positive(x, y); }
    if x < 0.0 && y < 0.0 { Positive(-x, -y); assert -x * -y == x * y; }
  }

  /** Input against the pending way never leads on in the old direction, so that the view turns back at
      once unless it is at the end already. */
  lemma ReversingTurnsBack(s: Scroll, delta: real, now: real)
    requires Sound(s)
    requires var here := Advance(s, now);
             (here.target > here.position && delta < 0.0) || (here.target < here.position && delta > 0.0)
    ensures var here, n := Advance(s, now), Apply(s, Move(delta, now));
            && (delta < 0.0 ==> n.target <= here.position && (here.position > 0.0 ==> n.target < here.position))
            && (delta > 0.0 ==> n.target >= here.position && (here.position < s.maximum as real ==> n.target > here.position))
  {
    MovesLead(s, delta, now);
    AdvanceKeeps(s, now);
    hide Along, At, Share, Apply;
    SignOfProduct(Advance(s, now).target - Advance(s, now).position, delta);
  }

  /** Input in one direction, with any steps in between. */
  predicate OneWay(e: Event, forward: bool) {
    e.Step? || (e.Move? && (if forward then e.delta >= 0.0 else e.delta <= 0.0))
  }

  function Sum(events: seq<Event>): real {
    if events == [] then 0.0 else (if events[0].Move? then events[0].delta else 0.0) + Sum(events[1..])
  }

  /** From rest, or on a way in the same direction, all of it adds up; only the ends of the range cut it. */
  lemma {:induction false} OneWayAddsUp(s: Scroll, events: seq<Event>, forward: bool)
    requires Sound(s) && if forward then s.position <= s.target else s.target <= s.position
    requires forall e <- events :: OneWay(e, forward)
    ensures Way(s.target + Sum(events), Run(s, events).target, s.maximum)
    decreases |events|
  {
    if events == [] {
      SoundTarget(s);
    } else {
      var e := events[0];
      assert e in events && forall x <- events[1..] :: x in events;
      var n := Apply(s, e);
      OneWayStep(s, e, forward);
      ApplyKeeps(s, e);
      hide Sound, Apply;
      OneWayAddsUp(n, events[1..], forward);
      SumSign(events[1..], forward);
    }
  }

  lemma SoundTarget(s: Scroll)
    requires Sound(s)
    ensures Way(s.target + Sum([]), s.target, s.maximum)
  {
  }

  lemma {:induction false} SumSign(events: seq<Event>, forward: bool)
    requires forall e <- events :: OneWay(e, forward)
    ensures if forward then Sum(events) >= 0.0 else Sum(events) <= 0.0
  {
    if events != [] {
      assert events[0] in events && forall x <- events[1..] :: x in events;
      SumSign(events[1..], forward);
    }
  }

  lemma OneWayStep(s: Scroll, e: Event, forward: bool)
    requires Sound(s) && OneWay(e, forward)
    requires if forward then s.position <= s.target else s.target <= s.position
    ensures var n := Apply(s, e);
            && Way(s.target + (if e.Move? then e.delta else 0.0), n.target, s.maximum) && n.maximum == s.maximum
            && if forward then n.position <= n.target else n.target <= n.position
  {
    var here := Advance(s, e.now);
    if Active(s) { StepMoves(s, e.now); }
    assert here.target == s.target && if forward then here.position <= s.target else s.target <= here.position by {
      hide Along, At, Share;
    }
    if e.Move? && e.delta != 0.0 {
      MovesLead(s, e.delta, e.now);
      SignOfProduct(here.target - here.position, e.delta);
      hide Along, At, Share, Apply;
      AdvanceKeeps(s, e.now);
    }
  }

  /** How the way is covered: what is left of it is the cube of what is left of the time. */
  lemma WayLeft(s: Scroll, now: real)
    requires Sound(s) && Active(s) && Max(now, s.lastTime) < s.startTime + 0.12
    ensures var left := (s.startTime + 0.12 - Max(now, s.lastTime)) / 0.12;
            && 0.0 < left <= 1.0
            && s.target - Advance(s, now).position == (s.target - s.start) * (left * left * left)
  {
    var time := Max(now, s.lastTime);
    var left, d := (s.startTime + 0.12 - time) / 0.12, s.target - s.start;
    AlongIsShare(s, time);
    assert 1.0 - Elapsed(s, time) == left;
    Rest(d, Cube(left));
  }

  lemma Rest(d: real, c: real)
    ensures d - Mul(d, 1.0 - c) == d * c
  {
  }

  /** A jump lands at once, a reset changes the range first. */
  lemma JumpsLand(s: Scroll, position: real, maximum: int)
    requires 0 <= s.maximum
    ensures var n := Apply(s, JumpTo(position));
            Way(position, n.position, s.maximum) && n.target == n.position && n.maximum == s.maximum
    ensures var n := Apply(s, ResetTo(position, maximum));
            && n.maximum == (if maximum < 0 then 0 else maximum)
            && Way(position, n.position, n.maximum) && n.target == n.position
  {
  }

  // ---- the time an animation takes ----

  /** Where an animation stands depends on the latest timestamp only, not on the steps taken before. */
  lemma StepsCompose(s: Scroll, a: real, b: real)
    requires Sound(s)
    ensures Advance(Advance(s, a), b).position == Advance(s, Max(a, b)).position
  {
    if Active(s) {
      StepMoves(s, a);
      StepMoves(s, Max(a, b));
      var n := Advance(s, a);
      SameWay(s, n, Max(b, n.lastTime));
      hide Along, Sound;
    }
  }

  lemma SameWay(s: Scroll, n: Scroll, time: real)
    requires s.start == n.start && s.target == n.target && s.startTime == n.startTime
    ensures Along(s, time) == Along(n, time)
  {
  }

  function Steps(times: seq<real>): (events: seq<Event>)
    ensures |events| == |times| && forall i :: 0 <= i < |times| ==> events[i] == Step(times[i])
  {
    seq(|times|, i requires 0 <= i < |times| => Step(times[i]))
  }

  /** Successive steps of one animation approach the target without overshooting. */
  lemma {:induction false} StepsApproach(s: Scroll, times: seq<real>)
    requires Sound(s)
    ensures var n := Run(s, Steps(times));
            n.target == s.target && Min(s.position, s.target) <= n.position <= Max(s.position, s.target)
    decreases |times|
  {
    hide Sound, Along;
    if times != [] {
      var next := Advance(s, times[0]);
      if Active(s) { StepMoves(s, times[0]); }
      AdvanceKeeps(s, times[0]);
      assert Steps(times)[1..] == Steps(times[1..]);
      StepsApproach(next, times[1..]);
    }
  }

  // ---- input against an end cannot postpone settling ----

  /** Input that would push an animation further past the end it is heading for. */
  predicate Pushes(s: Scroll, e: Event) {
    match e
    case Step(_) => true
    case Move(delta, _) =>
      || (s.target == s.maximum as real && delta > 0.0)
      || (s.target == 0.0 && delta < 0.0)
      || delta == 0.0
    case _ => false
  }

  /** A move by nothing is ignored; every other such input looks at the clock. */
  predicate Timed(e: Event) { e.Step? || (e.Move? && e.delta != 0.0) }

  /** Such input does what a mere step at the same time does. */
  lemma PushIsStep(s: Scroll, e: Event)
    requires Sound(s) && Active(s) && Pushes(s, e) && Timed(e)
    ensures Apply(s, e) == Advance(s, e.now)
  {
    if e.Move? {
      var time := Effective(s, e.now);
      StepMoves(s, e.now);
      hide Along, Share, At, Eased;
      assert Advance(s, time) == Advance(s, e.now);
    }
  }

  /** Whatever such events come: the target stays, an animation that is still running is the same one,
      and once a timed event comes when its time is up, it has settled. */
  lemma {:induction false} PushesCannotDelay(s: Scroll, events: seq<Event>)
    requires Sound(s) && Active(s)
    requires forall e <- events :: Pushes(s, e)
    ensures var n := Run(s, events);
            && n.target == s.target
            && (Active(n) ==> n.startTime == s.startTime && n.start == s.start)
            && ((exists e :: e in events && Timed(e) && e.now >= s.startTime + DURATION) ==> !Active(n))
    decreases |events|
  {
    hide Sound, Along, Apply;
    if events != [] {
      var e := events[0];
      assert e in events;
      assert forall x <- events[1..] :: x in events;
      if Timed(e) {
        PushIsStep(s, e);
        StepMoves(s, e.now);
        var next := Advance(s, e.now);
        if Active(next) {
          PushesCannotDelay(next, events[1..]);
        } else {
          PushesKeepRest(next, events[1..]);
        }
      } else {
        IgnoredMove(s, e);
        PushesCannotDelay(s, events[1..]);
      }
    }
  }

  lemma IgnoredMove(s: Scroll, e: Event)
    requires Pushes(s, e) && !Timed(e)
    ensures Apply(s, e) == s
  {
  }

  /** At the end it was heading for, further pushes change nothing. */
  lemma {:induction false} PushesKeepRest(s: Scroll, events: seq<Event>)
    requires Sound(s) && !Active(s) && forall e <- events :: Pushes(s, e)
    ensures Run(s, events) == s
    decreases |events|
  {
    if events != [] {
      assert events[0] in events && forall x <- events[1..] :: x in events;
      PushesKeepRest(s, events[1..]);
    }
  }

  // ---- the object ----

  class SmoothScroller {
    var position: real
    var target: real
    var startPosition: real
    var startTime: real
    var lastTime: real
    var maximum: int

    ghost function View(): Scroll
      reads this
    {
      Scroll(position, target, startPosition, startTime, lastTime, maximum)
    }

    constructor ()
      ensures View() == INITIAL
    {
      position, target, startPosition, startTime, lastTime, maximum := 0.0, 0.0, 0.0, 0.0, 0.0, 0;
    }

    method ResetTo(where: real, limit: int)
      modifies this
      ensures View() == Reset(old(View()), where, limit)
    {
      maximum := if limit < 0 then 0 else limit;
      JumpTo(where);
    }

    method JumpTo(where: real)
      modifies this
      ensures View() == Jump(old(View()), where)
    {
      position := Clamp(where, 0.0, maximum as real);
      target := position;
      startPosition := position;
      startTime := 0.0;
      lastTime := 0.0;
    }

    method Move(delta: real, now: real)
      modifies this
      ensures View() == MoveBy(old(View()), delta, now)
    {
      hide Along, Mul, Eased;
      if delta == 0.0 { return; }
      var time := now;
      if position != target { time := Max(now, lastTime); }
      var changed := Step(time);
      var pending := target - position;
      var reversing := (pending > 0.0 && delta < 0.0) || (pending < 0.0 && delta > 0.0);
      var next := Clamp((if reversing then position else target) + delta, 0.0, maximum as real);
      if next == target { return; }
      startPosition := position;
      target := next;
      startTime := time;
      lastTime := time;
    }

    method Step(now: real) returns (changed: bool)
      modifies this
      ensures View() == Advance(old(View()), now) && changed == (position != old(position))
    {
      hide Mul, Eased;
      if position == target { return false; }
      var time := Max(now, lastTime);
      lastTime := time;
      var previous := position;
      if time >= startTime + DURATION {
        position := target;
      } else {
        var t := Clamp((time - startTime) / DURATION, 0.0, 1.0);
        position := Clamp(startPosition + Mul(target - startPosition, Eased(t)),
                          Min(startPosition, target), Max(startPosition, target));
      }
      changed := position != previous;
    }
  }
}
