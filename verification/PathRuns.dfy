/**
 * The path table on its own, under any sequence of new packets, retransmissions and acknowledgements. A 16-bit counter that
 * wraps around makes a full path look empty; this is exactly when packets in flight can exceed the caps and the moves.
 */
module PathRuns {
  import opened SerialNumbers
  import opened Packets
  import opened PathAccounting

  /** A new packet on a path, packet `n` sent again on a path, or the oldest packet acknowledged. */
  datatype PathStep = SendOn(path: PathId) | MoveTo(n: nat, path: PathId) | AckOldest

  datatype Table = Table(paths: Paths, una: nat, nxt: nat)

  function New(): Table {
    Table(Empty(), 0, 0)
  }

  /** A window never exceeds the cap, so no path takes a packet that its counter does not leave room for under the cap. */
  predicate Allowed(s: Table, step: PathStep) {
    match step
    case SendOn(path) => s.paths.pp[path] + 1 <= PLATFORM.maxUnackedPp
    case MoveTo(n, _) => s.una <= n < s.nxt
    case AckOldest => s.una < s.nxt
  }

  function Apply(s: Table, step: PathStep): Table {
    match step
    case SendOn(path) => s.(paths := Sent(s.paths, Wrap(s.nxt), path), nxt := s.nxt + 1)
    case MoveTo(n, path) => s.(paths := Moved(s.paths, Wrap(n), path))
    case AckOldest => s.(paths := Acked(s.paths, Wrap(s.una)), una := s.una + 1)
  }

  function After(s: Table, steps: seq<PathStep>): Table
    decreases |steps|
  {
    if steps == [] then s else After(Apply(s, steps[0]), steps[1..])
  }

  predicate AllAllowed(s: Table, steps: seq<PathStep>)
    decreases |steps|
  {
    steps == [] || (Allowed(s, steps[0]) && AllAllowed(Apply(s, steps[0]), steps[1..]))
  }

  predicate Capped(s: Table) {
    s.nxt - s.una <= PLATFORM.maxUnackedPp * PLATFORM.maxPath + s.paths.moves
  }

  lemma StepKeepsTallied(s: Table, step: PathStep)
    requires Tallied(s.paths, s.una, s.nxt) && Allowed(s, step) && (step.SendOn? ==> FewMoves(s.paths))
    ensures var u := Apply(s, step); Tallied(u.paths, u.una, u.nxt)
  {
    hide Tallied;
    match step
    case SendOn(path) => SendKeepsTallied(s.paths, Wrap(s.nxt), path, s.una, s.nxt);
    case MoveTo(n, path) => MoveKeepsTallied(s.paths, Wrap(n), path, s.una, s.nxt);
    case AckOldest => AckKeepsTallied(s.paths, Wrap(s.una), s.una, s.nxt);
  }

  lemma {:induction false} MovesGrow(s: Table, steps: seq<PathStep>)
    ensures s.paths.moves <= After(s, steps).paths.moves
    decreases |steps|
  {
    if steps != [] {
      MovesGrow(Apply(s, steps[0]), steps[1..]);
    }
  }

  /** As long as no counter can have wrapped around, the tallies are right. */
  lemma {:induction false} RunKeepsTallied(s: Table, steps: seq<PathStep>)
    requires Tallied(s.paths, s.una, s.nxt) && AllAllowed(s, steps) && FewMoves(After(s, steps).paths)
    ensures var u := After(s, steps); Tallied(u.paths, u.una, u.nxt)
    decreases |steps|
  {
    hide Tallied;
    if steps != [] {
      MovesGrow(s, steps);
      StepKeepsTallied(s, steps[0]);
      RunKeepsTallied(Apply(s, steps[0]), steps[1..]);
    }
  }

  lemma {:induction false} NothingTallied(tally: seq<int>, n: nat)
    requires n <= |tally| && forall i :: 0 <= i < |tally| ==> tally[i] == 0
    ensures Total(tally, n) == 0 && Excess(tally, n) == 0
  {
    if n > 0 {
      NothingTallied(tally, n - 1);
    }
  }

  lemma EmptyIsTallied()
    ensures Tallied(Empty(), 0, 0)
  {
    NothingTallied(Empty().tally, PLATFORM.maxPath);
  }

  // ----- A wrapped counter -----

  lemma {:induction false} Concat(s: Table, a: seq<PathStep>, b: seq<PathStep>)
    ensures After(s, a + b) == After(After(s, a), b)
    ensures AllAllowed(s, a) && AllAllowed(After(s, a), b) ==> AllAllowed(s, a + b)
    decreases |a|
  {
    if a == [] {
      assert a + b == b;
    } else {
      assert (a + b)[0] == a[0] && (a + b)[1..] == a[1..] + b;
      Concat(Apply(s, a[0]), a[1..], b);
    }
  }

  lemma NoSteps(s: Table)
    ensures After(s, []) == s && AllAllowed(s, [])
  {
  }

  lemma OneThen(s: Table, step: PathStep, more: seq<PathStep>)
    ensures After(s, [step] + more) == After(Apply(s, step), more)
    ensures AllAllowed(s, [step] + more) <==> Allowed(s, step) && AllAllowed(Apply(s, step), more)
  {
    assert ([step] + more)[1..] == more;
  }

  lemma UpdatedTwice(tally: seq<int>, k: nat, x: int, y: int)
    requires k < |tally|
    ensures tally[k := x][k := y] == tally[k := y] && tally[k := x][k] == x
  {
  }

  /** Where the packets are, by tally; the counters follow. */
  ghost predicate At(s: Table, tally: seq<int>, flight: nat, moves: nat) {
    Modulo(s.paths) && s.paths.tally == tally && s.nxt - s.una == flight && s.paths.moves == moves
  }

  lemma AtGives(s: Table, tally: seq<int>, flight: nat, moves: nat)
    requires At(s, tally, flight, moves)
    ensures |tally| == PLATFORM.maxPath && s.nxt - s.una == flight && s.paths.moves == moves
  {
  }

  lemma SendOne(s: Table, tally: seq<int>, flight: nat, moves: nat, path: PathId)
    requires At(s, tally, flight, moves) && tally[path] % 0x1_0000 < PLATFORM.maxUnackedPp
    ensures Allowed(s, SendOn(path))
    ensures At(Apply(s, SendOn(path)), tally[path := tally[path] + 1], flight + 1, moves)
  {
    StaysModulo(SetPath(s.paths, Wrap(s.nxt), path).(moved := s.paths.moved[Slot(Wrap(s.nxt)) := false]), path);
  }

  /** Send on one path and move the packet to another at once. */
  lemma SendAndMove(s: Table, tally: seq<int>, flight: nat, moves: nat, a: PathId, b: PathId)
    requires At(s, tally, flight, moves) && a != b && tally[a] == 0
    ensures var u := Apply(s, SendOn(a));
      && Allowed(s, SendOn(a)) && Allowed(u, MoveTo(s.nxt, b))
      && At(Apply(u, MoveTo(s.nxt, b)), tally[b := tally[b] + 1], flight + 1, moves + 1)
  {
    SendOne(s, tally, flight, moves, a);
    var u := Apply(s, SendOn(a));
    assert PathOf(u.paths, Wrap(s.nxt)) == a;
    StaysModulo(u.paths, a);
    StaysModulo(Dec(u.paths, a), b);
    assert tally[a := 1][a := 0][b := tally[b] + 1] == tally[b := tally[b] + 1];
  }

  /** `k` more packets on a path whose counter leaves room for them. */
  lemma {:induction false} Fill(s: Table, tally: seq<int>, flight: nat, moves: nat, path: PathId, k: nat)
    returns (steps: seq<PathStep>)
    requires At(s, tally, flight, moves) && tally[path] % 0x1_0000 + k <= PLATFORM.maxUnackedPp
    ensures AllAllowed(s, steps) && At(After(s, steps), tally[path := tally[path] + k], flight + k, moves)
    decreases k
  {
    steps := [];
    AtGives(s, tally, flight, moves);
    hide At, Apply, Allowed, After, AllAllowed;
    NoSteps(s);
    if k > 0 {
      SendOne(s, tally, flight, moves, path);
      var u := tally[path := tally[path] + 1];
      var more := Fill(Apply(s, SendOn(path)), u, flight + 1, moves, path, k - 1);
      steps := [SendOn(path)] + more;
      OneThen(s, SendOn(path), more);
      UpdatedTwice(tally, path, tally[path] + 1, tally[path] + k);
    } else {
      assert tally[path := tally[path]] == tally;
    }
  }

  /** `k` packets sent on one path and each moved to another at once. */
  lemma {:induction false} Shift(s: Table, tally: seq<int>, flight: nat, moves: nat, a: PathId, b: PathId, k: nat)
    returns (steps: seq<PathStep>)
    requires At(s, tally, flight, moves) && a != b && tally[a] == 0
    ensures AllAllowed(s, steps) && At(After(s, steps), tally[b := tally[b] + k], flight + k, moves + k)
    decreases k
  {
    steps := [];
    AtGives(s, tally, flight, moves);
    hide At, Apply, Allowed, After, AllAllowed;
    NoSteps(s);
    if k > 0 {
      SendAndMove(s, tally, flight, moves, a, b);
      var u, v := tally[b := tally[b] + 1], Apply(Apply(s, SendOn(a)), MoveTo(s.nxt, b));
      var more := Shift(v, u, flight + 1, moves + 1, a, b, k - 1);
      steps := [SendOn(a)] + ([MoveTo(s.nxt, b)] + more);
      OneThen(Apply(s, SendOn(a)), MoveTo(s.nxt, b), more);
      OneThen(s, SendOn(a), [MoveTo(s.nxt, b)] + more);
      UpdatedTwice(tally, b, tally[b] + 1, tally[b] + k);
    } else {
      assert tally[b := tally[b]] == tally;
    }
  }

  /** Tallies of the first `n` paths one cap higher. */
  function Raised(tally: seq<int>, n: nat): seq<int>
    requires n <= |tally|
  {
    seq(|tally|, i requires 0 <= i < |tally| => tally[i] + if i < n then PLATFORM.maxUnackedPp else 0)
  }

  lemma RaiseOne(tally: seq<int>, n: nat)
    requires n < |tally|
    ensures Raised(tally, n)[n] == tally[n]
    ensures Raised(tally, n + 1) == Raised(tally, n)[n := tally[n] + PLATFORM.maxUnackedPp]
  {
  }

  lemma NothingRaised(tally: seq<int>)
    ensures Raised(tally, 0) == tally
  {
  }

  /** All counters read zero. */
  ghost predicate AllZero(tally: seq<int>) {
    |tally| == PLATFORM.maxPath && forall i :: 0 <= i < |tally| ==> tally[i] % 0x1_0000 == 0
  }

  lemma FillNext(s: Table, tally: seq<int>, flight: nat, moves: nat, path: PathId) returns (steps: seq<PathStep>)
    requires AllZero(tally) && At(s, Raised(tally, path), flight, moves)
    ensures AllAllowed(s, steps) && At(After(s, steps), Raised(tally, path + 1), flight + PLATFORM.maxUnackedPp, moves)
  {
    RaiseOne(tally, path);
    assert tally[path] % 0x1_0000 == 0;
    hide At, After, AllAllowed, Raised, AllZero;
    steps := Fill(s, Raised(tally, path), flight, moves, path, PLATFORM.maxUnackedPp);
  }

  /** The caps of the first `n` paths together. */
  function Caps(n: nat): (caps: nat)
    ensures caps == PLATFORM.maxUnackedPp * n
  {
    if n == 0 then 0 else Caps(n - 1) + PLATFORM.maxUnackedPp
  }

  /** If all counters are zero, every path takes as many packets as its cap. */
  lemma {:induction false} FillAll(s: Table, tally: seq<int>, flight: nat, moves: nat, n: nat) returns (steps: seq<PathStep>)
    requires At(s, tally, flight, moves) && n <= PLATFORM.maxPath && AllZero(tally)
    ensures AllAllowed(s, steps) && At(After(s, steps), Raised(tally, n), flight + Caps(n), moves)
    decreases n
  {
    NothingRaised(tally);
    NoSteps(s);
    hide At, After, AllAllowed, Raised, AllZero;
    if n == 0 {
      steps := [];
    } else {
      var first := FillAll(s, tally, flight, moves, n - 1);
      var second := FillNext(After(s, first), tally, flight + Caps(n - 1), moves, n - 1);
      Concat(s, first, second);
      steps := first + second;
    }
  }

  /** From an empty table: path `b` with 2^16 packets in flight, and its counter back at zero. */
  lemma Wrap16(s: Table, zero: seq<int>, a: PathId, b: PathId) returns (steps: seq<PathStep>)
    requires At(s, zero, 0, 0) && a != b && zero[a] == zero[b] == 0 && PLATFORM.maxUnackedPp <= PATH_HISTORY
    ensures AllAllowed(s, steps)
    ensures At(After(s, steps), zero[b := 0x1_0000], 0x1_0000, 0x1_0000 - PLATFORM.maxUnackedPp)
  {
    AtGives(s, zero, 0, 0);
    hide At, After, AllAllowed;
    var cap := PLATFORM.maxUnackedPp;
    var first := Fill(s, zero, 0, 0, b, cap);
    var t := zero[b := zero[b] + cap];
    var second := Shift(After(s, first), t, 0 + cap, 0, a, b, 0x1_0000 - cap);
    assert t[b := t[b] + (0x1_0000 - cap)] == zero[b := 0x1_0000];
    Concat(s, first, second);
    steps := first + second;
  }

  lemma NewIsEmpty() returns (zero: seq<int>)
    ensures At(New(), zero, 0, 0) && |zero| == PLATFORM.maxPath && forall i :: 0 <= i < |zero| ==> zero[i] == 0
  {
    zero := Empty().tally;
    assert Modulo(Empty()) by {
      forall path: PathId
        ensures Empty().pp[path] == 0 && Empty().tally[path] == 0
      {
      }
    }
    assert New().paths.tally == zero && New().paths.moves == 0;
    hide Modulo, Empty;
  }

  /**
   * One path is filled to its cap; then packets are sent on another and moved to it until it has 2^16 of them and its
   * counter reads zero; then every path is filled to its cap.
   */
  lemma WrappedCounter() returns (steps: seq<PathStep>)
    requires PLATFORM.maxPath >= 2
    ensures AllAllowed(New(), steps) && PLATFORM.maxUnackedPp <= PATH_HISTORY
    ensures var s := After(New(), steps);
      s.paths.moves == 0x1_0000 - PLATFORM.maxUnackedPp && s.nxt - s.una == 0x1_0000 + PLATFORM.maxUnackedPp * PLATFORM.maxPath
  {
    hide At, After, AllAllowed, New;
    var cap, n := PLATFORM.maxUnackedPp, PLATFORM.maxPath;
    CapIsSmall();
    var zero := NewIsEmpty();
    var ab := Wrap16(New(), zero, 1, 0);
    var tally := zero[0 := 0x1_0000];
    var c := FillAll(After(New(), ab), tally, 0x1_0000, 0x1_0000 - cap, n);
    Concat(New(), ab, c);
    steps := ab + c;
    AtGives(After(New(), steps), Raised(tally, n), 0x1_0000 + Caps(n), 0x1_0000 - cap);
  }

  lemma CapIsSmall()
    ensures PLATFORM.maxUnackedPp <= PATH_HISTORY
  {
    assert PLATFORM.maxUnackedPp * PLATFORM.maxPath >= PLATFORM.maxUnackedPp;
  }

  /** With one path there is no other to move a packet to. */
  lemma {:induction false} OnePathNeverMoves(s: Table, steps: seq<PathStep>)
    requires PLATFORM.maxPath == 1
    ensures After(s, steps).paths.moves == s.paths.moves
    decreases |steps|
  {
    if steps != [] {
      OnePathNeverMoves(Apply(s, steps[0]), steps[1..]);
    }
  }

  lemma FewMovesCap(steps: seq<PathStep>)
    requires AllAllowed(New(), steps) && FewMoves(After(New(), steps).paths)
    ensures Capped(After(New(), steps))
  {
    hide Tallied;
    EmptyIsTallied();
    RunKeepsTallied(New(), steps);
    var u := After(New(), steps);
    FlightIsCapped(u.paths, u.una, u.nxt);
  }

  /**
   * Packets in flight never exceed the caps plus the moves in all sequences with at most `moves` moves, exactly if there is
   * only one path or the cap of a path and the moves together stay below 2^16.
   */
  lemma CappedIff(moves: nat)
    ensures (forall steps :: AllAllowed(New(), steps) && After(New(), steps).paths.moves <= moves ==>
               Capped(After(New(), steps)))
       <==> PLATFORM.maxPath == 1 || PLATFORM.maxUnackedPp + moves < 0x1_0000
  {
    hide AllAllowed, After, Capped;
    CapIsSmall();
    if PLATFORM.maxPath == 1 || PLATFORM.maxUnackedPp + moves < 0x1_0000 {
      forall steps | AllAllowed(New(), steps) && After(New(), steps).paths.moves <= moves
        ensures Capped(After(New(), steps))
      {
        if PLATFORM.maxPath == 1 {
          OnePathNeverMoves(New(), steps);
        }
        FewMovesCap(steps);
      }
    } else {
      var steps := WrappedCounter();
      NotCapped(After(New(), steps));
    }
  }

  lemma NotCapped(s: Table)
    requires s.paths.moves == 0x1_0000 - PLATFORM.maxUnackedPp
    requires s.nxt - s.una == 0x1_0000 + PLATFORM.maxUnackedPp * PLATFORM.maxPath && PLATFORM.maxUnackedPp > 0
    ensures !Capped(s)
  {
  }
}
