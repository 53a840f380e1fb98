/** The reset routine as it updates its globals in place. */
module AudioReset {
  import opened ResetModel

  class ResetSequencer {
    var status: nat
    var counter: nat
    var numReverbs: int
    const gains: array<nat>
    const notes: array<Note>
    const output: array<seq<int>>
    const preset: Preset
    ghost var log: seq<Action>

    predicate Valid()
      reads this
    {
      numReverbs <= gains.Length == |preset|
    }

    ghost function Model(): State
      reads this, gains, notes, output
    {
      State(status, counter, numReverbs, gains[..], notes[..], output[..], log)
    }

    constructor (gains: array<nat>, notes: array<Note>, output: array<seq<int>>, preset: Preset, numReverbs: int)
      requires numReverbs <= gains.Length == |preset|
      ensures Valid() && status == counter == 0 && log == []
      ensures this.gains == gains && this.notes == notes && this.output == output
    {
      this.gains, this.notes, this.output, this.preset, this.numReverbs := gains, notes, output, preset, numReverbs;
      status, counter, log := 0, 0, [];
    }

    method UpdateReverbs()
      requires Valid()
      modifies gains
      ensures gains[..] == DecayAll(old(gains[..]), numReverbs)
    {
      var i := 0;
      while i < numReverbs
        invariant 0 <= i && if 0 < numReverbs then i <= numReverbs else i == 0
        invariant forall k :: 0 <= k < gains.Length ==>
                    gains[k] == if k < i then Decay(old(gains[k])) else old(gains[k])
      {
        gains[i] := gains[i] - gains[i] / 4;
        i := i + 1;
      }
    }

    /** Marks every enabled note whose envelope is running for release. */
    method ReleaseNotes()
      modifies notes
      ensures notes[..] == ReleaseAll(old(notes[..]))
    {
      for i := 0 to notes.Length
        invariant forall k :: 0 <= k < notes.Length ==>
                    notes[k] == if k < i then ReleaseAll(old(notes[..]))[k] else old(notes[k])
      {
        if notes[i].enabled && notes[i].envelope != 0 {
          notes[i] := notes[i].(releasing := true);
        }
      }
    }

    method ClearOutputBuffers()
      modifies output
      ensures output[..] == Silenced(old(output[..]))
    {
      for i := 0 to output.Length
        invariant forall k :: 0 <= k < output.Length ==>
                    output[k] == if k < i then Silence(|old(output[k])|) else old(output[k])
      {
        var n := |output[i]|;
        for j := 0 to n
          invariant |output[i]| == n && forall m :: 0 <= m < j ==> output[i][m] == 0
          invariant forall k :: 0 <= k < output.Length && k != i ==>
                      output[k] == if k < i then Silence(|old(output[k])|) else old(output[k])
        {
          output[i] := output[i][j := 0];
        }
        assert output[i] == Silence(n);
      }
    }

    /** One frame of the reset. The answer is 0 once the synthesiser must not run any more. */
    method ResetStep() returns (answer: int)
      requires Valid()
      modifies this, gains, notes, output
      ensures Valid() && Model() == old(Step(Model(), preset)) && answer == Answer(Model())
    {
      match status {
        case 5 =>
          StopAllPlayers();
          counter := 4;
          status := status - 1;
        case 4 =>
          if counter != 0 {
            counter := counter - 1;
            UpdateReverbs();
          } else {
            ReleaseNotes();
            log := log + [Action.ReleaseNotes];
            counter := 16;
            status := status - 1;
          }
        case 3 =>
          if counter != 0 {
            counter := counter - 1;
            UpdateReverbs();
          } else {
            ClearOutputBuffers();
            log := log + [ClearOutput];
            counter := 4;
            status := status - 1;
          }
        case 2 =>
          if counter != 0 {
            counter := counter - 1;
          } else {
            status := status - 1;
          }
        case 1 =>
          InitHeap();
          status := 0;
        case _ =>
      }
      answer := if status < 3 then 0 else 1;
    }

    method StopAllPlayers()
      modifies this`log
      ensures log == old(log) + StopPlayers(PLAYERS)
    {
      for k := 0 to PLAYERS
        invariant log == old(log) + StopPlayers(k)
      {
        log := log + [StopPlayer(k)];
      }
    }

    method InitHeap()
      requires Valid()
      modifies this`log, gains
      ensures log == old(log) + [HeapInit] && gains[..] == preset
    {
      for i := 0 to gains.Length
        invariant gains[..i] == preset[..i] && log == old(log)
      {
        gains[i] := preset[i];
      }
      assert gains[..] == gains[..gains.Length] && preset == preset[..gains.Length];
      log := log + [HeapInit];
    }
  }
}
