/** The shared reverb gain of echo zones: saved when the first player enters one, restored when the last
    one leaves. When that works, over all interleavings and game modes. */
module ZoneModel {
  datatype Player = P1 | P2

  // Reverb sent to a player's sequence channels.
  const WET := 0x66
  const DRY := 0x10

  datatype Command = Command(channel: nat, value: nat)

  /** active counts who is known to be inside; in1 and in2 are only kept by the two-player mode. */
  datatype State = State(active: nat, saved: nat, gain: nat, in1: nat, in2: nat, cmds: seq<Command>)

  /** two: the game is in the two-player mode when the call is made. */
  datatype Op = Enter(p: Player, two: bool) | Leave(p: Player, two: bool)

  // The track with the stronger echo.
  const STRONG_ECHO_TRACK := 3

  function ZoneGain(track: int): nat {
    if track == STRONG_ECHO_TRACK then 0x61FF else 0x5FFF
  }

  function Commands(p: Player, two: bool, value: nat): seq<Command> {
    if !two then [Command(0, value), Command(2, value), Command(3, value), Command(5, value)]
    else if p == P1 then [Command(0, value), Command(2, value)]
    else [Command(3, value), Command(5, value)]
  }

  function DoEnter(s: State, track: int, p: Player, two: bool): State {
    var t := if s.active == 0 then s.(saved := s.gain, gain := ZoneGain(track), active := 1) else s;
    var u := t.(cmds := t.cmds + Commands(p, two, WET));
    if !two then u else if p == P1 then u.(in1 := 1) else u.(in2 := 1)
  }

  function DoLeave(s: State, p: Player, two: bool): State {
    if s.active == 0 then s
    else
      var t := s.(cmds := s.cmds + Commands(p, two, DRY));
      var u := if !two then t.(active := 0)
        else
          var v := if p == P1 then t.(in1 := 0) else t.(in2 := 0);
          v.(active := v.in1 + v.in2);
      if u.active == 0 then u.(gain := u.saved) else u
  }

  function Step(s: State, track: int, op: Op): State {
    match op
    case Enter(p, two) => DoEnter(s, track, p, two)
    case Leave(p, two) => DoLeave(s, p, two)
  }

  function Run(s: State, track: int, ops: seq<Op>): State
    decreases |ops|
  {
    if ops == [] then s else Run(Step(s, track, ops[0]), track, ops[1..])
  }

  // ---------- who is inside, from the calls alone ----------

  function InsideStep(inside: set<Player>, op: Op): set<Player> {
    match op
    case Enter(p, _) => inside + {p}
    case Leave(p, _) => inside - {p}
  }

  function Inside(inside: set<Player>, ops: seq<Op>): set<Player>
    decreases |ops|
  {
    if ops == [] then inside else Inside(InsideStep(inside, ops[0]), ops[1..])
  }

  /** The last command to a channel, if any, turned its reverb up. */
  predicate Wet(cmds: seq<Command>, channel: nat)
    decreases |cmds|
  {
    cmds != [] &&
    var last := cmds[|cmds| - 1];
    if last.channel == channel then last.value == 0x66 else Wet(cmds[..|cmds| - 1], channel)
  }

  /** The gain is the zone's, and the original one is kept safe, while anyone is inside; else it is the
      original one. */
  predicate Correct(s: State, track: int, original: nat, inside: set<Player>) {
    if inside == {} then s.active == 0 && s.gain == original
    else s.active != 0 && s.saved == original && s.gain == (if track == 3 then 0x61FF else 0x5FFF)
  }

  /** In two-player mode the flags and each player's own channels follow the players. */
  predicate ExactTwo(s: State, inside: set<Player>) {
    && s.in1 == (if P1 in inside then 1 else 0) && s.in2 == (if P2 in inside then 1 else 0)
    && (Wet(s.cmds, 0) <==> P1 in inside) && (Wet(s.cmds, 2) <==> P1 in inside)
    && (Wet(s.cmds, 3) <==> P2 in inside) && (Wet(s.cmds, 5) <==> P2 in inside)
  }

  /** In the other modes the flags stay clear and all channels go together. */
  predicate ExactOne(s: State, inside: set<Player>) {
    && s.in1 == s.in2 == 0
    && (forall c :: c in {0, 2, 3, 5} ==> (Wet(s.cmds, c) <==> inside != {}))
  }

  predicate OnOrOff(cmds: seq<Command>) {
    forall i :: 0 <= i < |cmds| ==> cmds[i].value == 0x66 || cmds[i].value == 0x10
  }

  predicate Exact(s: State, track: int, original: nat, inside: set<Player>, two: bool) {
    Correct(s, track, original, inside) && OnOrOff(s.cmds) && if two then ExactTwo(s, inside) else ExactOne(s, inside)
  }

  // ---------- what keeps it correct ----------

  lemma WetSnoc(cmds: seq<Command>, c: Command, channel: nat)
    ensures Wet(cmds + [c], channel) <==> if c.channel == channel then c.value == WET else Wet(cmds, channel)
  {
    assert (cmds + [c])[..|cmds + [c]| - 1] == cmds;
  }

  lemma WetPair(cmds: seq<Command>, a: Command, b: Command, channel: nat)
    ensures Wet(cmds + [a, b], channel) <==>
            if b.channel == channel then b.value == WET else if a.channel == channel then a.value == WET else Wet(cmds, channel)
  {
    WetSnoc(cmds, a, channel);
    WetSnoc(cmds + [a], b, channel);
    assert cmds + [a, b] == cmds + [a] + [b];
  }

  lemma WetAfter(cmds: seq<Command>, p: Player, two: bool, value: nat, channel: nat)
    requires channel in {0, 2, 3, 5}
    ensures Wet(cmds + Commands(p, two, value), channel) <==>
            if !two || (p == P1 <==> channel < 3) then value == WET else Wet(cmds, channel)
  {
    var more := Commands(p, two, value);
    if two {
      WetPair(cmds, more[0], more[1], channel);
    } else {
      WetPair(cmds, more[0], more[1], channel);
      WetPair(cmds + [more[0], more[1]], more[2], more[3], channel);
      assert cmds + more == cmds + [more[0], more[1]] + [more[2], more[3]];
    }
  }

  lemma WetAll(cmds: seq<Command>, p: Player, two: bool, value: nat)
    ensures var after := cmds + Commands(p, two, value);
      && (Wet(after, 0) <==> if !two || p == P1 then value == WET else Wet(cmds, 0))
      && (Wet(after, 2) <==> if !two || p == P1 then value == WET else Wet(cmds, 2))
      && (Wet(after, 3) <==> if !two || p == P2 then value == WET else Wet(cmds, 3))
      && (Wet(after, 5) <==> if !two || p == P2 then value == WET else Wet(cmds, 5))
  {
    WetAfter(cmds, p, two, value, 0);
    WetAfter(cmds, p, two, value, 2);
    WetAfter(cmds, p, two, value, 3);
    WetAfter(cmds, p, two, value, 5);
  }

  /** In two-player mode every call keeps everything exact, in whatever order players come and go. */
  lemma TwoPlayerCall(s: State, track: int, original: nat, inside: set<Player>, op: Op)
    requires Exact(s, track, original, inside, true) && op.two
    ensures Exact(Step(s, track, op), track, original, InsideStep(inside, op), true)
  {
    WetAll(s.cmds, op.p, true, WET);
    WetAll(s.cmds, op.p, true, DRY);
    hide Wet, Commands;
    BothOrOne(inside);
    BothOrOne(InsideStep(inside, op));
  }

  lemma BothOrOne(inside: set<Player>)
    ensures inside == {} <==> P1 !in inside && P2 !in inside
  {
    if inside != {} {
      var p :| p in inside;
      assert p == P1 || p == P2;
    }
  }

  /** In the other modes a call keeps everything exact if and only if nobody else stays inside when a
      player leaves. */
  lemma SharedCallIff(s: State, track: int, original: nat, inside: set<Player>, op: Op)
    requires Exact(s, track, original, inside, false) && !op.two
    ensures Exact(Step(s, track, op), track, original, InsideStep(inside, op), false)
            <==> op.Leave? && inside != {} ==> inside == {op.p}
  {
    WetAll(s.cmds, op.p, false, WET);
    WetAll(s.cmds, op.p, false, DRY);
    hide Wet, Commands;
  }

  /** Changing mode is harmless at exactly the moments nobody is inside. */
  lemma ModesAgreeWhenEmpty(s: State, track: int, original: nat, two: bool)
    requires Exact(s, track, original, {}, two)
    ensures Exact(s, track, original, {}, !two)
  {
  }

  /** The mode changes only while nobody is inside, and outside two-player mode only one player is ever in. */
  predicate Orderly(inside: set<Player>, two: bool, ops: seq<Op>)
    decreases |ops|
  {
    ops != [] ==>
    && (ops[0].two != two ==> inside == {})
    && (!ops[0].two && ops[0].Leave? && inside != {} ==> inside == {ops[0].p})
    && Orderly(InsideStep(inside, ops[0]), ops[0].two, ops[1..])
  }

  /** Over every orderly run the original gain is kept while anyone is inside and is back exactly when
      the last player has left, however often anyone entered. */
  lemma {:induction false} ZonesAreTransparent(s: State, track: int, original: nat, inside: set<Player>, two: bool, ops: seq<Op>)
    requires Exact(s, track, original, inside, two) && Orderly(inside, two, ops)
    ensures Correct(Run(s, track, ops), track, original, Inside(inside, ops))
    decreases |ops|
  {
    if ops != [] {
      hide Exact, Correct, Step, InsideStep;
      var op := ops[0];
      if op.two != two {
        ModesAgreeWhenEmpty(s, track, original, two);
      }
      if op.two {
        TwoPlayerCall(s, track, original, inside, op);
      } else {
        SharedCallIff(s, track, original, inside, op);
      }
      ZonesAreTransparent(Step(s, track, op), track, original, InsideStep(inside, op), op.two, ops[1..]);
    } else {
      assert Correct(s, track, original, inside) by { ExactIsCorrect(s, track, original, inside, two); }
    }
  }

  lemma ExactIsCorrect(s: State, track: int, original: nat, inside: set<Player>, two: bool)
    requires Exact(s, track, original, inside, two)
    ensures Correct(s, track, original, inside)
  {
  }

  /** A run in two-player mode throughout is orderly. */
  lemma {:induction false} TwoPlayerRunsAreOrderly(inside: set<Player>, ops: seq<Op>)
    requires forall i :: 0 <= i < |ops| ==> ops[i].two
    ensures Orderly(inside, true, ops)
    decreases |ops|
  {
    if ops != [] {
      TwoPlayerRunsAreOrderly(InsideStep(inside, ops[0]), ops[1..]);
    }
  }

  function Other(p: Player): Player {
    if p == P1 then P2 else P1
  }

  /** If the mode changes while player p is inside, some calls that follow, each harmless in the new mode
      for one who is alone, leave the gain wrong. */
  lemma ChangeWhileInsideFails(s: State, track: int, original: nat, p: Player, two: bool)
    requires Exact(s, track, original, {p}, two) && original != ZoneGain(track)
    ensures var q := Other(p);
      var ops := if two then [Leave(p, false), Enter(q, true), Leave(q, true)] else [Enter(q, true), Leave(q, true)];
      !Correct(Run(s, track, ops), track, original, Inside({p}, ops))
  {
    var q := Other(p);
    assert {p} - {p} == {} && {} + {q} - {q} == {} && {p} + {q} - {q} == {p};
    if two {
      TwoCalls(DoLeave(s, p, false), track, {}, Enter(q, true), Leave(q, true));
      var ops := [Leave(p, false), Enter(q, true), Leave(q, true)];
      assert ops[1..] == [Enter(q, true), Leave(q, true)];
    } else {
      TwoCalls(s, track, {p}, Enter(q, true), Leave(q, true));
    }
  }

  /** If it changes while both are inside, the first of them to leave ends the zone for the other. */
  lemma ChangeWhileBothInsideFails(s: State, track: int, original: nat, p: Player, two: bool)
    requires Exact(s, track, original, {P1, P2}, two)
    ensures !Correct(DoLeave(s, p, false), track, original, InsideStep({P1, P2}, Leave(p, false)))
    ensures !two ==> !Correct(DoLeave(s, p, true), track, original, InsideStep({P1, P2}, Leave(p, true)))
  {
    assert {P1, P2} - {p} == {Other(p)};
    hide Wet, Commands;
  }

  lemma TwoCalls(s: State, track: int, inside: set<Player>, a: Op, b: Op)
    ensures Run(s, track, [a, b]) == Step(Step(s, track, a), track, b)
    ensures Inside(inside, [a, b]) == InsideStep(InsideStep(inside, a), b)
  {
    assert [a, b][1..] == [b] && [b][1..] == [];
    assert Run(Step(s, track, a), track, [b]) == Step(Step(s, track, a), track, b);
    assert Inside(InsideStep(inside, a), [b]) == InsideStep(InsideStep(inside, a), b);
  }
}
