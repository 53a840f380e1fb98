/** The staged audio reset: stop the players, let reverb and notes fade, silence the output buffers,
    then rebuild the heap. One step per audio frame. */
module ResetModel {
  datatype Action = StopPlayer(k: nat) | ReleaseNotes | ClearOutput | HeapInit

  /** A note as the reset sees it. */
  datatype Note = Note(enabled: bool, envelope: nat, releasing: bool)

  datatype State = State(status: nat, counter: nat, numReverbs: int, gains: seq<nat>, notes: seq<Note>,
                         output: seq<seq<int>>, log: seq<Action>)

  const PLAYERS := 4

  function StopPlayers(n: nat): seq<Action> {
    if n == 0 then [] else StopPlayers(n - 1) + [StopPlayer(n - 1)]
  }

  function Decay(g: nat): nat {
    g - g / 4
  }

  function DecayAll(gains: seq<nat>, numReverbs: int): (r: seq<nat>)
    ensures |r| == |gains|
  {
    seq(|gains|, i requires 0 <= i < |gains| => if i < numReverbs then Decay(gains[i]) else gains[i])
  }

  function ReleaseAll(notes: seq<Note>): (r: seq<Note>)
    ensures |r| == |notes|
  {
    seq(|notes|, i requires 0 <= i < |notes| =>
      if notes[i].enabled && notes[i].envelope != 0 then notes[i].(releasing := true) else notes[i])
  }

  function Silence(n: nat): seq<int> {
    seq(n, _ => 0)
  }

  function Silenced(output: seq<seq<int>>): seq<seq<int>> {
    seq(|output|, i requires 0 <= i < |output| => Silence(|output[i]|))
  }

  /** Gains the rebuilt heap starts with: they depend on the audio preset. */
  type Preset = seq<nat>

  function Step(s: State, preset: Preset): State {
    match s.status
    case 5 => s.(status := 4, counter := 4, log := s.log + StopPlayers(PLAYERS))
    case 4 =>
      if s.counter != 0 then s.(counter := s.counter - 1, gains := DecayAll(s.gains, s.numReverbs))
      else s.(status := 3, counter := 16, notes := ReleaseAll(s.notes), log := s.log + [ReleaseNotes])
    case 3 =>
      if s.counter != 0 then s.(counter := s.counter - 1, gains := DecayAll(s.gains, s.numReverbs))
      else s.(status := 2, counter := 4, output := Silenced(s.output), log := s.log + [ClearOutput])
    case 2 => if s.counter != 0 then s.(counter := s.counter - 1) else s.(status := 1)
    case 1 => s.(status := 0, gains := preset, log := s.log + [HeapInit])
    case _ => s
  }

  /** The step's answer: whether the synthesiser is still to run. */
  function Answer(s: State): int {
    if s.status < 3 then 0 else 1
  }

  function Run(s: State, preset: Preset, n: nat): State {
    if n == 0 then s else Step(Run(s, preset, n - 1), preset)
  }

  // ---------- progress ----------

  /** Steps left until the reset is over. */
  function Left(s: State): nat {
    match s.status
    case 5 => 29
    case 4 => s.counter + 24
    case 3 => s.counter + 7
    case 2 => s.counter + 2
    case 1 => 1
    case _ => 0
  }

  /** What leaving each status does, from status a down to status b. */
  function Actions(a: nat, b: nat): seq<Action>
    decreases a - b
  {
    if a <= b then [] else Actions(a, b + 1) + Leaving(b + 1)
  }

  function Leaving(status: nat): seq<Action> {
    match status
    case 5 => StopPlayers(PLAYERS)
    case 4 => [ReleaseNotes]
    case 3 => [ClearOutput]
    case 1 => [HeapInit]
    case _ => []
  }

  /** Every step brings the end exactly one step nearer, and the log tells exactly which statuses were left. */
  lemma {:induction false} Progress(s: State, preset: Preset, n: nat)
    requires s.status <= 5 && n <= Left(s)
    ensures var t := Run(s, preset, n);
      && Left(t) == Left(s) - n && t.status <= s.status && t.log == s.log + Actions(s.status, t.status)
  {
    if n == 0 {
      assert s.log + [] == s.log;
    } else {
      hide Step, Left, Leaving, Actions;
      Progress(s, preset, n - 1);
      var t, u := Run(s, preset, n - 1), Run(s, preset, n);
      OneStep(t, preset);
      if u.status < t.status {
        OneMoreAction(s.status, t.status);
        assert s.log + Actions(s.status, t.status) + Leaving(t.status) == s.log + Actions(s.status, u.status);
      }
    }
  }

  lemma OneMoreAction(a: nat, b: nat)
    requires 0 < b <= a
    ensures Actions(a, b - 1) == Actions(a, b) + Leaving(b)
  {
  }

  lemma OneStep(t: State, preset: Preset)
    requires t.status <= 5 && 0 < Left(t)
    ensures var u := Step(t, preset);
      && Left(u) == Left(t) - 1 && t.status - 1 <= u.status <= t.status
      && u.log == if u.status < t.status then t.log + Leaving(t.status) else t.log
  {
    assert t.log + [] == t.log;
  }

  /** From any status 1 to 5 and any counter: the heap is rebuilt on the last of exactly Left(s) calls and
      on none before it. */
  lemma ResetEnds(s: State, preset: Preset, n: nat)
    requires 1 <= s.status <= 5 && n <= Left(s)
    ensures Run(s, preset, n).status == 0 <==> n == Left(s)
    ensures Run(s, preset, n).log == s.log + Actions(s.status, Run(s, preset, n).status)
    ensures HeapInit in Run(s, preset, n).log[|s.log|..] <==> n == Left(s)
    ensures n == Left(s) && s.status == 5 ==>
              Run(s, preset, n).log[|s.log|..] ==
              [StopPlayer(0), StopPlayer(1), StopPlayer(2), StopPlayer(3), ReleaseNotes, ClearOutput, HeapInit]
  {
    Progress(s, preset, n);
    var t := Run(s, preset, n);
    InitOnlyLast(s.status, t.status);
    FullActions();
    assert t.log[|s.log|..] == Actions(s.status, t.status);
  }

  lemma {:induction false} InitOnlyLast(a: nat, b: nat)
    requires b <= a <= 5 && a > 0
    ensures HeapInit in Actions(a, b) <==> b == 0
    decreases a - b
  {
    if b < a {
      InitOnlyLast(a, b + 1);
      LeavingInit(b + 1);
      hide Leaving, Actions;
      assert HeapInit in Actions(a, b + 1) + Leaving(b + 1) <==> b == 0;
    }
  }

  lemma LeavingInit(status: nat)
    ensures HeapInit in Leaving(status) <==> status == 1
  {
    StopsOnly(PLAYERS);
  }

  lemma {:induction false} StopsOnly(n: nat)
    ensures HeapInit !in StopPlayers(n) && ClearOutput !in StopPlayers(n)
  {
    if n > 0 {
      StopsOnly(n - 1);
    }
  }

  lemma FullActions()
    ensures Actions(5, 0) == [StopPlayer(0), StopPlayer(1), StopPlayer(2), StopPlayer(3), ReleaseNotes, ClearOutput, HeapInit]
  {
    assert Actions(5, 4) == Leaving(5) && Actions(5, 3) == Actions(5, 4) + Leaving(4);
    assert Actions(5, 2) == Actions(5, 3) + Leaving(3) && Actions(5, 1) == Actions(5, 2) + Leaving(2);
    hide Actions, Leaving;
  }

  /** A finished or foreign status stays as it is; the reset never resumes. */
  lemma {:induction false} Rests(s: State, preset: Preset, n: nat)
    requires s.status == 0 || s.status > 5
    ensures Run(s, preset, n) == s
  {
    if n > 0 {
      Rests(s, preset, n - 1);
    }
  }

  /** The answer never goes back from 0 to 1. */
  lemma {:induction false} AnswerNeverReturns(s: State, preset: Preset, m: nat, n: nat)
    requires m <= n && Answer(Run(s, preset, m)) == 0
    ensures Answer(Run(s, preset, n)) == 0
    decreases n - m
  {
    if m < n {
      AnswerNeverReturns(s, preset, m, n - 1);
    }
  }

  // ---------- what is silenced, released and restored ----------

  /** Over any number of steps, exactly the samples are silent that the reset has passed status 3 on: until
      then every buffer is as it was, and no buffer changes its length. */
  lemma {:induction false} OutputDuringReset(s: State, preset: Preset, n: nat)
    requires s.status <= 5
    ensures var t := Run(s, preset, n);
      && t.status <= s.status && |t.output| == |s.output|
      && forall i :: 0 <= i < |s.output| ==> SilencedIff(s.output[i], t.output[i], t.status <= 2 < s.status)
  {
    if n > 0 {
      OutputDuringReset(s, preset, n - 1);
      OutputStep(Run(s, preset, n - 1), preset);
    }
  }

  predicate SilencedIff(before: seq<int>, after: seq<int>, silent: bool) {
    |after| == |before| && forall j :: 0 <= j < |before| ==> after[j] == if silent then 0 else before[j]
  }

  lemma OutputStep(t: State, preset: Preset)
    requires t.status <= 5
    ensures var u := Step(t, preset);
      && u.status <= t.status && |u.output| == |t.output|
      && forall i :: 0 <= i < |t.output| ==> SilencedIff(t.output[i], u.output[i], u.status <= 2 < t.status)
  {
  }

  /** A note is releasing exactly if it was before, or the reset has passed status 4 on it while it was
      enabled with its envelope running; nothing else of it changes. */
  lemma {:induction false} NotesDuringReset(s: State, preset: Preset, n: nat, i: nat)
    requires s.status <= 5 && i < |s.notes|
    ensures var t := Run(s, preset, n);
      && t.status <= s.status && |t.notes| == |s.notes|
      && t.notes[i].enabled == s.notes[i].enabled && t.notes[i].envelope == s.notes[i].envelope
      && (t.notes[i].releasing <==>
            s.notes[i].releasing || (t.status <= 3 < s.status && s.notes[i].enabled && s.notes[i].envelope != 0))
  {
    if n > 0 {
      NotesDuringReset(s, preset, n - 1, i);
      NoteStep(Run(s, preset, n - 1), preset, i);
    }
  }

  lemma NoteStep(t: State, preset: Preset, i: nat)
    requires t.status <= 5 && i < |t.notes|
    ensures var u := Step(t, preset);
      && u.status <= t.status && |u.notes| == |t.notes|
      && u.notes[i].enabled == t.notes[i].enabled && u.notes[i].envelope == t.notes[i].envelope
      && (u.notes[i].releasing <==>
            t.notes[i].releasing || (u.status <= 3 < t.status && t.notes[i].enabled && t.notes[i].envelope != 0))
  {
  }

  /** The synthesiser is told to stop exactly from the step on that silences the buffers. */
  lemma StopsWhenSilent(s: State, preset: Preset, n: nat)
    requires 3 <= s.status <= 5 && n <= Left(s)
    ensures Run(s, preset, n).log == s.log + Actions(s.status, Run(s, preset, n).status)
    ensures Answer(Run(s, preset, n)) == 0 <==> ClearOutput in Run(s, preset, n).log[|s.log|..]
  {
    Progress(s, preset, n);
    var t := Run(s, preset, n);
    assert t.log[|s.log|..] == Actions(s.status, t.status);
    ClearsAtThree(s.status, t.status);
    hide Actions, Run;
  }

  lemma {:induction false} ClearsAtThree(a: nat, b: nat)
    requires b <= a <= 5
    ensures ClearOutput in Actions(a, b) <==> b <= 2 < a
    decreases a - b
  {
    if b < a {
      ClearsAtThree(a, b + 1);
      LeavingClear(b + 1);
      OneMoreAction(a, b + 1);
      ClearIn(Actions(a, b + 1), Leaving(b + 1));
      hide Leaving, Actions;
    }
  }

  lemma ClearIn(s: seq<Action>, t: seq<Action>)
    ensures ClearOutput in s + t <==> ClearOutput in s || ClearOutput in t
  {
  }

  lemma LeavingClear(status: nat)
    ensures ClearOutput in Leaving(status) <==> status == 3
  {
    StopsOnly(PLAYERS);
  }

  /** Once the reset is over the gains are the preset's, however often it is called afterwards. */
  lemma {:induction false} GainsRestored(s: State, preset: Preset, n: nat)
    requires 1 <= s.status <= 5 && Left(s) <= n
    ensures Run(s, preset, n).gains == preset && Run(s, preset, n).status == 0
  {
    hide Left;
    if n > Left(s) {
      GainsRestored(s, preset, n - 1);
    } else {
      assert Left(s) > 0 by { NotOver(s); }
      Progress(s, preset, n - 1);
      LastStep(Run(s, preset, n - 1), preset);
    }
  }

  lemma NotOver(s: State)
    requires 1 <= s.status <= 5
    ensures 0 < Left(s)
  {
  }

  lemma LastStep(t: State, preset: Preset)
    requires t.status <= 5 && Left(t) == 1
    ensures Step(t, preset).gains == preset && Step(t, preset).status == 0
  {
  }

  // ---------- fading ----------

  /** Decays still to come. */
  function DecaysLeft(s: State): nat {
    match s.status
    case 5 => 20
    case 4 => s.counter + 16
    case 3 => s.counter
    case _ => 0
  }

  function DecayBy(g: nat, k: nat): nat {
    if k == 0 then g else Decay(DecayBy(g, k - 1))
  }

  function Pow(b: nat, k: nat): nat {
    if k == 0 then 1 else b * Pow(b, k - 1)
  }

  /** k decays bring a gain to within rounding of (3/4)^k of what it was, from above and below, and never
      raise it. */
  lemma {:induction false} FadesGeometrically(g: nat, k: nat)
    ensures Pow(3, k) * g <= Pow(4, k) * DecayBy(g, k)
    ensures Pow(4, k) * (DecayBy(g, k) - 3) <= Pow(3, k) * (g - 3)
    ensures DecayBy(g, k) <= g
  {
    if k > 0 {
      FadesGeometrically(g, k - 1);
      var was: int := DecayBy(g, k - 1);
      FadeStep(Pow(4, k - 1), Pow(3, k - 1), Decay(was) - 3, was - 3, g - 3);
      FadeLimit(Pow(4, k - 1), Pow(3, k - 1), Decay(was), was, g);
    }
  }

  lemma FadeLimit(p: nat, q: nat, a: int, b: int, c: int)
    requires q * c <= p * b && 3 * b <= 4 * a
    ensures 3 * q * c <= 4 * p * a
  {
    assert p * (3 * b) <= p * (4 * a);
    assert 4 * p * a == p * (4 * a) && p * (3 * b) == 3 * (p * b);
    assert 3 * q * c == 3 * (q * c);
  }

  lemma FadeStep(p: nat, q: nat, a: int, b: int, c: int)
    requires p * b <= q * c && 4 * a <= 3 * b
    ensures 4 * p * a <= 3 * q * c
  {
    assert p * (4 * a) <= p * (3 * b);
    assert 4 * p * a == p * (4 * a) && p * (3 * b) == 3 * (p * b);
    assert 3 * q * c == 3 * (q * c);
  }

  /** During the reset each active reverb has decayed once per decay spent, the others not at all. */
  lemma {:induction false} GainsDuringReset(s: State, preset: Preset, n: nat, i: nat)
    requires 1 <= s.status <= 5 && n < Left(s) && i < |s.gains|
    ensures var t := Run(s, preset, n);
      && DecaysLeft(t) <= DecaysLeft(s) && |t.gains| == |s.gains|
      && t.gains[i] == if i < s.numReverbs then DecayBy(s.gains[i], DecaysLeft(s) - DecaysLeft(t)) else s.gains[i]
  {
    hide Step, Left, DecaysLeft, DecayBy;
    if n > 0 {
      Progress(s, preset, n - 1);
      GainsDuringReset(s, preset, n - 1, i);
      SameReverbs(s, preset, n - 1);
      var t := Run(s, preset, n - 1);
      GainStep(t, preset, i);
      DecayAgain(s.gains[i], DecaysLeft(s) - DecaysLeft(t), DecaysLeft(t) - DecaysLeft(Step(t, preset)));
    } else {
      assert DecayBy(s.gains[i], 0) == s.gains[i] by { ZeroDecays(s.gains[i]); }
    }
  }

  lemma ZeroDecays(g: nat)
    ensures DecayBy(g, 0) == g
  {
  }

  lemma GainStep(t: State, preset: Preset, i: nat)
    requires 1 < Left(t) && i < |t.gains|
    ensures var u := Step(t, preset);
      && DecaysLeft(u) <= DecaysLeft(t) && |u.gains| == |t.gains|
      && u.gains[i] == if i < t.numReverbs then DecayBy(t.gains[i], DecaysLeft(t) - DecaysLeft(u)) else t.gains[i]
  {
    assert DecayBy(t.gains[i], 1) == Decay(DecayBy(t.gains[i], 0));
  }

  lemma {:induction false} DecayAgain(g: nat, j: nat, k: nat)
    ensures DecayBy(DecayBy(g, j), k) == DecayBy(g, j + k)
  {
    if k > 0 {
      DecayAgain(g, j, k - 1);
    }
  }

  lemma {:induction false} SameReverbs(s: State, preset: Preset, n: nat)
    ensures Run(s, preset, n).numReverbs == s.numReverbs
  {
    if n > 0 {
      SameReverbs(s, preset, n - 1);
    }
  }

  /** A full reset fades any 16-bit reverb gain to at most 210 before the heap is rebuilt. */
  lemma FullResetFades(s: State, preset: Preset, i: nat)
    requires s.status == 5 && i < |s.gains| && i < s.numReverbs && s.gains[i] < 0x1_0000
    ensures var t := Run(s, preset, 28); t.status == 1 && |t.gains| == |s.gains| && t.gains[i] <= 210
  {
    GainsDuringReset(s, preset, 28, i);
    ResetEnds(s, preset, 28);
    Progress(s, preset, 28);
    FadesGeometrically(s.gains[i], 20);
    PowersOfTwenty();
  }

  lemma PowersOfTwenty()
    ensures Pow(4, 20) == 1099511627776 && Pow(3, 20) == 3486784401
  {
    assert Pow(4, 5) == 1024 && Pow(3, 5) == 243;
    assert Pow(4, 10) == 1048576 && Pow(3, 10) == 59049;
    assert Pow(4, 15) == 1073741824 && Pow(3, 15) == 14348907;
  }
}
