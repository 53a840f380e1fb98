/** Entering and leaving an echo zone, on the game's global flags and the shared reverb. */
module ReverbZone {
  import opened ZoneModel

  class ZoneGlobals {
    var active: nat
    var saved: nat
    var gain: nat
    var in1: nat
    var in2: nat
    var cmds: seq<Command>
    var mode: int
    var track: int

    function Model(): State
      reads this
    {
      State(active, saved, gain, in1, in2, cmds)
    }

    function TwoPlayers(): bool
      reads this
    {
      mode == 1
    }

    constructor (mode: int, track: int, gain: nat)
      ensures Exact(Model(), track, gain, {}, TwoPlayers()) && this.mode == mode && this.track == track && this.gain == gain
    {
      this.mode, this.track, this.gain := mode, track, gain;
      active, saved, in1, in2, cmds := 0, 0, 0, 0, [];
    }

    method QueueCommand(channel: nat, value: nat)
      modifies this`cmds
      ensures cmds == old(cmds) + [Command(channel, value)]
    {
      cmds := cmds + [Command(channel, value)];
    }

    method QueueAll(value: nat)
      modifies this`cmds
      ensures cmds == old(cmds) + Commands(P1, false, value)
    {
      QueueCommand(0, value);
      QueueCommand(2, value);
      QueueCommand(3, value);
      QueueCommand(5, value);
    }

    method EnterZone(p: int)
      modifies this`active, this`saved, this`gain, this`in1, this`in2, this`cmds
      ensures Model() == Step(old(Model()), track, Enter(if p == 0 then P1 else P2, TwoPlayers()))
    {
      if active == 0 {
        saved := gain;
        if track == STRONG_ECHO_TRACK {
          gain := 0x61FF;
        } else {
          gain := 0x5FFF;
        }
        active := 1;
      }
      if mode != 1 {
        QueueAll(WET);
      } else if p == 0 {
        QueueCommand(0, WET);
        QueueCommand(2, WET);
        in1 := 1;
      } else {
        QueueCommand(3, WET);
        QueueCommand(5, WET);
        in2 := 1;
      }
    }

    method LeaveZone(p: int)
      modifies this`active, this`saved, this`gain, this`in1, this`in2, this`cmds
      ensures Model() == Step(old(Model()), track, Leave(if p == 0 then P1 else P2, TwoPlayers()))
    {
      if active == 0 {
        return;
      }
      if mode != 1 {
        QueueAll(DRY);
        active := 0;
      } else {
        if p == 0 {
          QueueCommand(0, DRY);
          QueueCommand(2, DRY);
          in1 := 0;
        } else {
          QueueCommand(3, DRY);
          QueueCommand(5, DRY);
          in2 := 0;
        }
        active := in1 + in2;
      }
      if active == 0 {
        gain := saved;
      }
    }
  }
}
